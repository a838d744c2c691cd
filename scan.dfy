/**
  The fixed search patterns of the log parser, each written as a dedicated scanner
  with the semantics of Python's `re.search`: the leftmost position where the
  pattern's leading literal occurs and the rest of the pattern matches, with the
  pattern's own greedy, lazy and backtracking behaviour spelled out.
 */
module Scan {

  import opened Wrappers
  import opened Text

  /** The ten patterns; comments give their shape in words. */
  datatype Pattern =
    | TunnelProcess  // "process:", spaces, the shortest one-line text up to "," or " to host:"
    | TunnelHost     // "host:", spaces, a run without spaces and commas
    | TunnelAddr     // "host:", spaces, a host run, ",", spaces, "addr:", spaces, a run without spaces and commas
    | BypassHost     // "exception host:" (any case), spaces, a run without spaces and commas
    | BypassProcess  // "process:" (any case), spaces, a run without commas and line feeds
    | BypassDestIp   // "dest ip:" (any case), spaces, a run without spaces and commas
    | RttFields      // "pop:" run, spaces, "ip:" run, spaces, "rtt:" digits
    | Gateway        // "connecting to " then "gateway-" (any case) and a run without colons
    | Tenant         // "url:https://addon-", a run without dots, ".", at least one more character on the line
    | UserAgent      // "STA user agent:", spaces, three ';'-separated fields reaching the end of the line

  /** The literal each pattern starts with; lower-case where the pattern ignores case. */
  function Key(pat: Pattern): (k: string)
    ensures |k| == KeyLength(pat) > 0
  {
    match pat
    case TunnelProcess => "process:"
    case TunnelHost => "host:"
    case TunnelAddr => "host:"
    case BypassHost => "exception host:"
    case BypassProcess => "process:"
    case BypassDestIp => "dest ip:"
    case RttFields => "pop:"
    case Gateway => "connecting to "
    case Tenant => "url:https://addon-"
    case UserAgent => "STA user agent:"
  }

  function KeyLength(pat: Pattern): nat {
    match pat
    case TunnelProcess => 8
    case TunnelHost => 5
    case TunnelAddr => 5
    case BypassHost => 15
    case BypassProcess => 8
    case BypassDestIp => 8
    case RttFields => 4
    case Gateway => 14
    case Tenant => 18
    case UserAgent => 15
  }

  predicate IgnoresCase(pat: Pattern) {
    pat.BypassHost? || pat.BypassProcess? || pat.BypassDestIp? || pat.Gateway?
  }

  /** Number of capture groups. */
  function GroupCount(pat: Pattern): nat {
    if pat.RttFields? || pat.UserAgent? then 3 else 1
  }

  /** What every match of a pattern captures: the number of groups and their make-up. */
  predicate Shaped(pat: Pattern, g: seq<string>) {
    && |g| == GroupCount(pat)
    && match pat
       case TunnelProcess => AllIn(g[0], NonNewline)
       case BypassProcess => g[0] != [] && AllIn(g[0], NonCommaNewline)
       case RttFields =>
         && g[0] != [] && AllIn(g[0], NonSpace)
         && g[1] != [] && AllIn(g[1], NonSpace)
         && g[2] != [] && AllDigits(g[2])
       case Gateway => |g[0]| > 8 && Lower(g[0][..8]) == "gateway-" && AllIn(g[0][8..], NonColon)
       case Tenant => '.' in g[0]
       case UserAgent => ';' !in g[0] && ';' !in g[1]
       case _ => g[0] != [] && AllIn(g[0], NonSpaceComma)
  }

  /** A gateway match: "gateway-" in any case, then a name without colons. */
  lemma GatewayShape(g: seq<string>)
    requires Shaped(Gateway, g)
    ensures |g[0]| > 8 && Lower(g[0][..8]) == "gateway-" && ':' !in g[0][8..]
  {
    assert AllIn(g[0][8..], NonColon);
  }

  /** A tenant match keeps its dot once stripped. */
  lemma TenantShape(g: seq<string>)
    requires Shaped(Tenant, g)
    ensures '.' in Strip(g[0])
  {
    StripKeepsChar(g[0], '.');
  }

  /** The first two user-agent fields hold no ';', stripped or not. */
  lemma AgentShape(g: seq<string>)
    requires Shaped(UserAgent, g)
    ensures ';' !in Strip(g[0]) && ';' !in Strip(g[1])
  {
    StripAvoids(g[0], ';');
    StripAvoids(g[1], ';');
  }

  predicate AllIn(t: string, cl: Class) {
    forall k :: 0 <= k < |t| ==> In(t[k], cl)
  }

  lemma SliceAllIn(s: string, i: nat, j: nat, cl: Class)
    requires i <= j <= |s|
    requires forall k :: i <= k < j ==> In(s[k], cl)
    ensures AllIn(s[i..j], cl)
  {
    forall k | 0 <= k < j - i ensures In(s[i..j][k], cl) {
      assert s[i..j][k] == s[i + k];
    }
  }

  /** Stripping a run of one class leaves a run of that class. */
  lemma StripAllIn(t: string, cl: Class)
    requires AllIn(t, cl)
    ensures AllIn(Strip(t), cl)
  {
    var r := Strip(t);
    forall k | 0 <= k < |r| ensures In(r[k], cl) {
      assert r[k] == t[Span(t, 0, Space) + k];
    }
  }

  lemma SpanAllIn(s: string, i: nat, cl: Class)
    requires i <= |s|
    ensures AllIn(s[i..Span(s, i, cl)], cl)
  {
    SpanInside(s, i, cl);
    SliceAllIn(s, i, Span(s, i, cl), cl);
  }

  // ---------------------------------------------------------------------------
  // Where the pieces of a pattern sit in the text

  /** `j` lies within the whitespace run from `i`: a place where a `\s*` starting at `i` may stop. */
  predicate Blank(s: string, i: nat, j: nat) {
    i <= |s| && i <= j <= Span(s, i, Space)
  }

  /** `t` sits at `i` and is the whole greedy run of `cl` there, not empty: what `cl+` captures at `i`. */
  predicate RunAt(s: string, i: nat, t: string, cl: Class) {
    t != [] && HasAt(s, i, t) && Span(s, i, cl) == i + |t|
  }

  /** From `b`: at least one space ending at `c`, then `key`, then the run `t` of `cl`. */
  predicate SpacedAt(s: string, b: nat, c: nat, key: string, t: string, cl: Class) {
    b < c && Blank(s, b, c) && HasAt(s, c, key) && RunAt(s, c + |key|, t, cl)
  }

  /** `s[i..j]` is whitespace exactly when `j` lies within the whitespace run from `i`. */
  lemma BlankAll(s: string, i: nat, j: nat)
    requires i <= j <= |s|
    ensures Blank(s, i, j) <==> forall k :: i <= k < j ==> IsSpace(s[k])
  {
    var m := Span(s, i, Space);
    SpanInside(s, i, Space);
    assert m < j ==> !IsSpace(s[m]);
  }

  /** Leading spaces followed by a non-space are exactly the greedy whitespace run. */
  lemma BlankStop(s: string, p: nat, i: nat)
    requires Blank(s, p, i) && !InAt(s, i, Space)
    ensures i == Span(s, p, Space)
  {
  }

  /** A run holds only characters of its class, and the text after it does not continue it. */
  lemma RunIn(s: string, i: nat, t: string, cl: Class)
    requires RunAt(s, i, t, cl)
    ensures AllIn(t, cl) && !InAt(s, i + |t|, cl) && t == s[i..i + |t|]
  {
    SpanAllIn(s, i, cl);
  }

  // ---------------------------------------------------------------------------
  // The scanners, each with the layout it recognises

  /**
    The largest index in `[p, n]` satisfying `ok`: a `\s*` that stops at `n` and must be
    followed by something gives its spaces back one at a time until that something fits.
   */
  function LastFrom(p: nat, n: nat, ok: nat -> bool): (r: Option<nat>)
    requires p <= n
    ensures r.Some? ==> p <= r.value <= n && ok(r.value)
    decreases n - p
  {
    if ok(n) then Some(n)
    else if n == p then None
    else LastFrom(p, n - 1, ok)
  }

  /** No index after the one `LastFrom` finds satisfies `ok`, and none at all does when it fails. */
  lemma {:induction false} LastFromSound(p: nat, n: nat, ok: nat -> bool)
    requires p <= n
    ensures LastFrom(p, n, ok).Some? ==> forall k :: LastFrom(p, n, ok).value < k <= n ==> !ok(k)
    ensures LastFrom(p, n, ok).None? ==> forall k :: p <= k <= n ==> !ok(k)
    decreases n - p
  {
    if !ok(n) && n > p {
      LastFromSound(p, n - 1, ok);
    }
  }

  /** The indices where a run of `cl` can start. */
  function RunStarts(s: string, cl: Class): nat -> bool {
    (k: nat) => InAt(s, k, cl)
  }

  /** `\s*` ending at `i`, then the greedy run `t` of `cl`. */
  predicate TokenLaid(s: string, p: nat, i: nat, t: string, cl: Class) {
    Blank(s, p, i) && RunAt(s, i, t, cl)
  }

  /** `\s*(cl+)`, for some way of ending the spaces. */
  ghost predicate TokenLayout(s: string, p: nat, t: string, cl: Class) {
    exists i: nat :: TokenLaid(s, p, i, t, cl)
  }

  /** `\s*(cl+)` right after index `p`. */
  function Token(s: string, p: nat, cl: Class): (r: Option<seq<string>>)
    requires p <= |s|
    ensures r.Some? ==> |r.value| == 1 && r.value[0] != [] && AllIn(r.value[0], cl)
  {
    match LastFrom(p, Span(s, p, Space), RunStarts(s, cl))
    case None => None
    case Some(i) =>
      SpanAllIn(s, i, cl);
      Some([s[i..Span(s, i, cl)]])
  }

  /** Where `Token` captures: at the place `LastFrom` picks. */
  lemma TokenLaidAt(s: string, p: nat, cl: Class)
    requires p <= |s| && Token(s, p, cl).Some?
    ensures LastFrom(p, Span(s, p, Space), RunStarts(s, cl)).Some?
    ensures TokenLaid(s, p, LastFrom(p, Span(s, p, Space), RunStarts(s, cl)).value, Token(s, p, cl).value[0], cl)
  {
  }

  /**
    What `Token` captures: the greedy run of `cl` starting at the last place where
    the leading spaces can end and a `cl` character follows; it fails only when no
    such place exists.
   */
  lemma TokenSound(s: string, p: nat, cl: Class)
    requires p <= |s|
    ensures Token(s, p, cl).Some? ==>
              exists i: nat :: TokenLaid(s, p, i, Token(s, p, cl).value[0], cl)
                               && forall k: nat :: i < k && Blank(s, p, k) ==> !InAt(s, k, cl)
    ensures Token(s, p, cl).None? ==> forall k: nat :: Blank(s, p, k) ==> !InAt(s, k, cl)
  {
    var n := Span(s, p, Space);
    LastFromSound(p, n, RunStarts(s, cl));
    match LastFrom(p, n, RunStarts(s, cl))
    case Some(i) =>
      assert TokenLaid(s, p, i, s[i..Span(s, i, cl)], cl);
      forall k: nat | i < k && Blank(s, p, k) ensures !InAt(s, k, cl) {
        assert !RunStarts(s, cl)(k);
      }
    case None =>
      forall k: nat | Blank(s, p, k) ensures !InAt(s, k, cl) {
        assert !RunStarts(s, cl)(k);
      }
  }

  /** Every `\s*(cl+)` layout after `p` makes `Token` match. */
  lemma TokenFound(s: string, p: nat, i: nat, t: string, cl: Class)
    requires TokenLaid(s, p, i, t, cl)
    ensures p <= |s| && Token(s, p, cl).Some?
  {
    LastFromSound(p, Span(s, p, Space), RunStarts(s, cl));
    assert RunStarts(s, cl)(i);
  }

  /** Runs without spaces or commas cannot start inside the leading spaces: the layout determines the run `Token` captures. */
  lemma TokenIs(s: string, p: nat, i: nat, t: string)
    requires TokenLaid(s, p, i, t, NonSpaceComma)
    ensures p <= |s| && Token(s, p, NonSpaceComma) == Some([t])
  {
    assert InAt(s, i, NonSpaceComma);
    BlankStop(s, p, i);
    assert RunStarts(s, NonSpaceComma)(i);
  }

  /** A run that starts right after all the leading spaces is captured whole: no space is given back. */
  lemma TokenAfterSpaces(s: string, p: nat, t: string, cl: Class)
    requires p <= |s| && RunAt(s, Span(s, p, Space), t, cl)
    ensures Token(s, p, cl) == Some([t])
  {
    assert RunStarts(s, cl)(Span(s, p, Space));
  }

  /** The alternatives that end the lazy process field: "," or " to host:". */
  predicate ProcessEndAt(s: string, i: nat) {
    (i < |s| && s[i] == ',') || HasAt(s, i, " to host:")
  }

  /** The first `ProcessEndAt` index from `i` on, provided no line feed comes before it. */
  function LazyEnd(s: string, i: nat): (r: Option<nat>)
    requires i <= |s|
    ensures r.Some? ==> i <= r.value <= |s| && ProcessEndAt(s, r.value)
    ensures r.Some? ==> forall k :: i <= k < r.value ==> s[k] != '\n' && !ProcessEndAt(s, k)
    decreases |s| - i
  {
    if ProcessEndAt(s, i) then Some(i)
    else if i == |s| || s[i] == '\n' then None
    else LazyEnd(s, i + 1)
  }

  /** The converse of `LazyEnd`'s contract: a terminator with no line feed before it is found, at it or earlier. */
  lemma {:induction false} LazyEndFinds(s: string, i: nat, e: nat)
    requires i <= e <= |s| && ProcessEndAt(s, e)
    requires forall k :: i <= k < e ==> s[k] != '\n'
    ensures LazyEnd(s, i).Some? && LazyEnd(s, i).value <= e
    decreases e - i
  {
    if !ProcessEndAt(s, i) {
      LazyEndFinds(s, i + 1, e);
    }
  }

  /** `\s*` ending at `i`, the one-line field `t`, then "," or " to host:". */
  predicate ProcessLaid(s: string, p: nat, i: nat, t: string) {
    Blank(s, p, i) && HasAt(s, i, t) && '\n' !in t && ProcessEndAt(s, i + |t|)
  }

  /** `\s*(.*?)(?:,| to host:)`, for some way of ending the spaces. */
  ghost predicate ProcessLayout(s: string, p: nat, t: string) {
    exists i: nat :: ProcessLaid(s, p, i, t)
  }

  /** The indices where a lazy process field can start. */
  function LazyFits(s: string): nat -> bool {
    (k: nat) => k <= |s| && LazyEnd(s, k).Some?
  }

  /** Tunnel process field: `\s*(.*?)(?:,| to host:)` right after index `p`. */
  function LazyField(s: string, p: nat): (r: Option<seq<string>>)
    requires p <= |s|
    ensures r.Some? ==> |r.value| == 1 && AllIn(r.value[0], NonNewline)
  {
    match LastFrom(p, Span(s, p, Space), LazyFits(s))
    case None => None
    case Some(m) =>
      var e := LazyEnd(s, m).value;
      SliceAllIn(s, m, e, NonNewline);
      Some([s[m..e]])
  }

  /** A process layout puts a terminator no later than the end of its field. */
  lemma ProcessLaidEnd(s: string, p: nat, i: nat, t: string)
    requires ProcessLaid(s, p, i, t)
    ensures LazyEnd(s, i).Some? && LazyEnd(s, i).value <= i + |t|
  {
    forall k | i <= k < i + |t| ensures s[k] != '\n' {
      assert s[k] == t[k - i];
    }
    LazyEndFinds(s, i, i + |t|);
  }

  /**
    The tunnel process field follows the leading spaces and is followed by its
    terminator; of all such layouts, its spaces end last, and for that end the
    field is the shortest.
   */
  lemma ProcessSound(s: string, p: nat)
    requires p <= |s|
    ensures LazyField(s, p).Some? ==>
              exists i: nat :: ProcessLaid(s, p, i, LazyField(s, p).value[0])
                && (forall k: nat, u: string :: ProcessLaid(s, p, k, u) ==> k <= i)
                && (forall u: string :: ProcessLaid(s, p, i, u) ==> |LazyField(s, p).value[0]| <= |u|)
  {
    var n := Span(s, p, Space);
    LastFromSound(p, n, LazyFits(s));
    if LazyField(s, p).Some? {
      var i := LastFrom(p, n, LazyFits(s)).value;
      var t := LazyField(s, p).value[0];
      assert ProcessLaid(s, p, i, t);
      forall k: nat, u: string | ProcessLaid(s, p, k, u) ensures k <= i {
        ProcessLaidEnd(s, p, k, u);
        assert LazyFits(s)(k);
      }
      forall u: string | ProcessLaid(s, p, i, u) ensures |t| <= |u| {
        ProcessLaidEnd(s, p, i, u);
      }
    }
  }

  /** Every process layout after `p` makes the tunnel process pattern match. */
  lemma ProcessComplete(s: string, p: nat, i: nat, t: string)
    requires ProcessLaid(s, p, i, t)
    ensures p <= |s| && LazyField(s, p).Some?
  {
    ProcessLaidEnd(s, p, i, t);
    LastFromSound(p, Span(s, p, Space), LazyFits(s));
    assert LazyFits(s)(i);
  }

  /**
    A field that fits right after all the leading spaces, with no terminator inside
    it, is the capture: no space is given back and the field is the shortest.
   */
  lemma ProcessIs(s: string, p: nat, t: string)
    requires p <= |s| && ProcessLaid(s, p, Span(s, p, Space), t)
    requires forall k :: Span(s, p, Space) <= k < Span(s, p, Space) + |t| ==> !ProcessEndAt(s, k)
    ensures LazyField(s, p) == Some([t])
  {
    var i := Span(s, p, Space);
    ProcessLaidEnd(s, p, i, t);
    assert LazyFits(s)(i);
    assert s[i..i + |t|] == t;
  }

  /** `\s*` to `a`, the host run `h`, ",", then `\s*` to `c` where "addr:" sits. */
  predicate HostLaid(s: string, p: nat, a: nat, h: string, c: nat) {
    && TokenLaid(s, p, a, h, NonSpaceComma)
    && HasAt(s, a + |h|, ",")
    && Blank(s, a + |h| + 1, c) && HasAt(s, c, "addr:")
  }

  /** The host layout, then `\s*` to `i` and the address run `t`. */
  predicate AddrLaid(s: string, p: nat, a: nat, h: string, c: nat, i: nat, t: string) {
    HostLaid(s, p, a, h, c) && TokenLaid(s, c + 5, i, t, NonSpaceComma)
  }

  /** `\s*[^\s,]+,\s*addr:\s*([^\s,]+)`: the address after a host run. */
  ghost predicate AddrLayout(s: string, p: nat, t: string) {
    exists a: nat, h: string, c: nat, i: nat :: AddrLaid(s, p, a, h, c, i, t)
  }

  /** Where "addr:" sits after the spaces, a host run, "," and more spaces. */
  function AddrKey(s: string, p: nat): (r: Option<nat>)
    requires p <= |s|
    ensures r.Some? ==> p < r.value && HasAt(s, r.value, "addr:")
  {
    var a := Span(s, p, Space);
    if InAt(s, a, NonSpaceComma) then
      var b := Span(s, a, NonSpaceComma);
      if b < |s| && s[b] == ',' then
        var c := Span(s, b + 1, Space);
        if HasAt(s, c, "addr:") then Some(c) else None
      else None
    else None
  }

  /** `AddrKey` finds "addr:" after the greedy host run, the comma and the spaces. */
  lemma HostSound(s: string, p: nat)
    requires p <= |s|
    ensures AddrKey(s, p).Some? ==>
              var a := Span(s, p, Space);
              HostLaid(s, p, a, s[a..Span(s, a, NonSpaceComma)], AddrKey(s, p).value)
  {
    if AddrKey(s, p).Some? {
      var a := Span(s, p, Space);
      var b := Span(s, a, NonSpaceComma);
      assert s[b..b + 1] == [s[b]];
    }
  }

  /** The host layout determines where `AddrKey` finds "addr:". */
  lemma HostIs(s: string, p: nat, a: nat, h: string, c: nat)
    requires HostLaid(s, p, a, h, c)
    ensures p <= |s| && AddrKey(s, p) == Some(c)
  {
    assert InAt(s, a, NonSpaceComma);
    BlankStop(s, p, a);
    var b := a + |h|;
    assert s[b] == s[b..b + 1][0];
    assert s[c] == 'a';
    BlankStop(s, b + 1, c);
  }

  /** Tunnel destination address: host run, ",", spaces, "addr:", then a token. */
  function AddrAfterHost(s: string, p: nat): (r: Option<seq<string>>)
    requires p <= |s|
    ensures r.Some? ==> |r.value| == 1 && r.value[0] != [] && AllIn(r.value[0], NonSpaceComma)
  {
    match AddrKey(s, p)
    case None => None
    case Some(c) => Token(s, c + 5, NonSpaceComma)
  }

  /** A token after the "addr:" that `AddrKey` finds is laid out as the address pattern says. */
  lemma AddrLaidOf(s: string, p: nat, c: nat)
    requires p <= |s| && AddrKey(s, p) == Some(c) && Token(s, c + 5, NonSpaceComma).Some?
    ensures AddrLayout(s, p, Token(s, c + 5, NonSpaceComma).value[0])
  {
    var a := Span(s, p, Space);
    var h := s[a..Span(s, a, NonSpaceComma)];
    var t := Token(s, c + 5, NonSpaceComma).value[0];
    assert HostLaid(s, p, a, h, c) by {
      HostSound(s, p);
    }
    TokenLaidAt(s, c + 5, NonSpaceComma);
    var i := LastFrom(c + 5, Span(s, c + 5, Space), RunStarts(s, NonSpaceComma)).value;
    assert AddrLaid(s, p, a, h, c, i, t);
  }

  /** The address the scanner returns follows a host run, ",", spaces and "addr:". */
  lemma AddrSound(s: string, p: nat)
    requires p <= |s|
    ensures AddrAfterHost(s, p).Some? ==> AddrLayout(s, p, AddrAfterHost(s, p).value[0])
  {
    if AddrAfterHost(s, p).Some? {
      AddrLaidOf(s, p, AddrKey(s, p).value);
    }
  }

  /** The address layout determines the address the scanner returns. */
  lemma AddrIs(s: string, p: nat, a: nat, h: string, c: nat, i: nat, t: string)
    requires AddrLaid(s, p, a, h, c, i, t)
    ensures p <= |s| && AddrAfterHost(s, p) == Some([t])
  {
    AddrKeyIs(s, p, a, h, c, i, t);
    AddrTokenIs(s, p, a, h, c, i, t);
    AddrOfParts(s, p, c, t);
  }

  /** The address layout fixes where `AddrKey` finds "addr:", */
  lemma AddrKeyIs(s: string, p: nat, a: nat, h: string, c: nat, i: nat, t: string)
    requires AddrLaid(s, p, a, h, c, i, t)
    ensures p <= |s| && AddrKey(s, p) == Some(c)
  {
    HostIs(s, p, a, h, c);
  }

  /** what `Token` captures after it, */
  lemma AddrTokenIs(s: string, p: nat, a: nat, h: string, c: nat, i: nat, t: string)
    requires AddrLaid(s, p, a, h, c, i, t)
    ensures c + 5 <= |s| && Token(s, c + 5, NonSpaceComma) == Some([t])
  {
    TokenIs(s, c + 5, i, t);
  }

  /** and so the address the scanner returns. */
  lemma AddrOfParts(s: string, p: nat, c: nat, t: string)
    requires p <= |s| && AddrKey(s, p) == Some(c) && c + 5 <= |s| && Token(s, c + 5, NonSpaceComma) == Some([t])
    ensures AddrAfterHost(s, p) == Some([t])
  {
  }

  /** The PoP run `g[0]` at `p`; spaces to `c`, "ip:" and the run `g[1]`; spaces to `f`, "rtt:" and the digits `g[2]`. */
  predicate RttLaid(s: string, p: nat, c: nat, f: nat, g: seq<string>) {
    && |g| == 3
    && RunAt(s, p, g[0], NonSpace)
    && SpacedAt(s, p + |g[0]|, c, "ip:", g[1], NonSpace)
    && SpacedAt(s, c + 3 + |g[1]|, f, "rtt:", g[2], Digit)
  }

  /** `pop:(\S+)\s+ip:(\S+)\s+rtt:(\d+)` after the literal. */
  ghost predicate RttLayout(s: string, p: nat, g: seq<string>) {
    exists c: nat, f: nat :: RttLaid(s, p, c, f, g)
  }

  /** `\s+key` from `b` followed by a `cl` character: where that run starts. */
  function SpacedRun(s: string, b: nat, key: string, cl: Class): (r: Option<nat>)
    requires b <= |s|
    ensures r.Some? ==> b + |key| < r.value < |s|
  {
    if b < |s| && IsSpace(s[b]) then
      var c := Span(s, b, Space);
      if HasAt(s, c, key) && InAt(s, c + |key|, cl) then Some(c + |key|) else None
    else None
  }

  /** What `SpacedRun` finds: at least one space, the literal, then the greedy run of `cl`. */
  lemma SpacedRunSound(s: string, b: nat, key: string, cl: Class)
    requires b <= |s|
    ensures SpacedRun(s, b, key, cl).Some? ==>
              var d := SpacedRun(s, b, key, cl).value;
              SpacedAt(s, b, d - |key|, key, s[d..Span(s, d, cl)], cl)
  {
    if SpacedRun(s, b, key, cl).Some? {
      var c := Span(s, b, Space);
      assert InAt(s, b, Space);
      assert InAt(s, c + |key|, cl);
    }
  }

  /** Where at least one space, a literal that does not start with a space and a run follow `b`, `SpacedRun` finds that run. */
  lemma SpacedRunIs(s: string, b: nat, c: nat, key: string, t: string, cl: Class)
    requires SpacedAt(s, b, c, key, t, cl) && key != [] && !IsSpace(key[0])
    ensures SpacedRun(s, b, key, cl) == Some(c + |key|)
    ensures Span(s, c + |key|, cl) == c + |key| + |t| && t == s[c + |key|..c + |key| + |t|]
  {
    assert s[c] == key[0];
    assert InAt(s, b, Space);
    BlankStop(s, b, c);
    assert InAt(s, c + |key|, cl);
  }

  /** RTT fields: PoP run, spaces, "ip:" run, spaces, "rtt:" digits. */
  function RttAt(s: string, p: nat): (r: Option<seq<string>>)
    requires p <= |s|
    ensures r.Some? ==> |r.value| == 3
    ensures r.Some? ==> r.value[0] != [] && AllIn(r.value[0], NonSpace)
    ensures r.Some? ==> r.value[1] != [] && AllIn(r.value[1], NonSpace)
    ensures r.Some? ==> r.value[2] != [] && AllDigits(r.value[2])
  {
    var b := Span(s, p, NonSpace);
    if p < b then
      match SpacedRun(s, b, "ip:", NonSpace)
      case None => None
      case Some(d) =>
        var e := Span(s, d, NonSpace);
        match SpacedRun(s, e, "rtt:", Digit)
        case None => None
        case Some(g) =>
          var h := Span(s, g, Digit);
          SpanAllIn(s, p, NonSpace);
          SpanAllIn(s, d, NonSpace);
          SpanAllIn(s, g, Digit);
          Some([s[p..b], s[d..e], s[g..h]])
    else None
  }

  /** `RttAt` once its three runs are located. */
  lemma RttAtOf(s: string, p: nat, b: nat, d: nat, e: nat, g: nat)
    requires p <= |s| && p < b == Span(s, p, NonSpace)
    requires SpacedRun(s, b, "ip:", NonSpace) == Some(d) && e == Span(s, d, NonSpace)
    requires SpacedRun(s, e, "rtt:", Digit) == Some(g)
    ensures RttAt(s, p) == Some([s[p..b], s[d..e], s[g..Span(s, g, Digit)]])
  {
  }

  /** The three fields the scanner returns are the PoP run, the run after "ip:" and the digits after "rtt:". */
  lemma RttSound(s: string, p: nat)
    requires p <= |s|
    ensures RttAt(s, p).Some? ==> RttLayout(s, p, RttAt(s, p).value)
  {
    if RttAt(s, p).Some? {
      var b := Span(s, p, NonSpace);
      var d := SpacedRun(s, b, "ip:", NonSpace).value;
      var e := Span(s, d, NonSpace);
      var g := SpacedRun(s, e, "rtt:", Digit).value;
      var h := Span(s, g, Digit);
      RttAtOf(s, p, b, d, e, g);
      SliceRun(s, p, b);
      SpacedRunLaid(s, b, d - 3, "ip:", NonSpace, d, e);
      SpacedRunLaid(s, e, g - 4, "rtt:", Digit, g, h);
      RttLaidOf(s, p, b, d - 3, e, g - 4, s[p..b], s[d..e], s[g..h]);
    }
  }

  /** The greedy run of `cl` from `i`, cut out of the text, is what `cl+` captures there. */
  lemma SliceRun(s: string, i: nat, j: nat)
    requires i <= |s| && i < j == Span(s, i, NonSpace)
    ensures RunAt(s, i, s[i..j], NonSpace) && i + |s[i..j]| == j
  {
  }

  /** What `SpacedRun` finds, with the literal's start `c` and the run's end `e` named. */
  lemma SpacedRunLaid(s: string, b: nat, c: nat, key: string, cl: Class, d: nat, e: nat)
    requires b <= |s| && SpacedRun(s, b, key, cl) == Some(d) && c + |key| == d && e == Span(s, d, cl)
    ensures SpacedAt(s, b, c, key, s[d..e], cl) && c + |key| + |s[d..e]| == e
  {
    SpacedRunSound(s, b, key, cl);
  }

  /** The three parts of the RTT layout make it up. */
  lemma RttLaidOf(s: string, p: nat, b: nat, c: nat, e: nat, f: nat, g0: string, g1: string, g2: string)
    requires RunAt(s, p, g0, NonSpace) && p + |g0| == b
    requires SpacedAt(s, b, c, "ip:", g1, NonSpace) && c + 3 + |g1| == e
    requires SpacedAt(s, e, f, "rtt:", g2, Digit)
    ensures RttLaid(s, p, c, f, [g0, g1, g2])
  {
  }

  /** The RTT layout locates the three runs `RttAt` looks for: the PoP run, */
  lemma RttRuns(s: string, p: nat, b: nat, c: nat, e: nat, f: nat, g: seq<string>)
    requires RttLaid(s, p, c, f, g) && b == p + |g[0]| && e == c + 3 + |g[1]|
    ensures RttFound(s, p, b, c + 3, e, f + 4, g)
  {
    IpRun(s, b, c, g[1]);
    RttDigits(s, e, f, g[2]);
  }

  /** the address run after "ip:", */
  lemma IpRun(s: string, b: nat, c: nat, t: string)
    requires SpacedAt(s, b, c, "ip:", t, NonSpace)
    ensures SpacedRun(s, b, "ip:", NonSpace) == Some(c + 3)
    ensures Span(s, c + 3, NonSpace) == c + 3 + |t| && t == s[c + 3..c + 3 + |t|]
  {
    SpacedRunIs(s, b, c, "ip:", t, NonSpace);
  }

  /** and the digits after "rtt:". */
  lemma RttDigits(s: string, e: nat, f: nat, t: string)
    requires SpacedAt(s, e, f, "rtt:", t, Digit)
    ensures SpacedRun(s, e, "rtt:", Digit) == Some(f + 4)
    ensures Span(s, f + 4, Digit) == f + 4 + |t| && t == s[f + 4..f + 4 + |t|]
  {
    SpacedRunIs(s, e, f, "rtt:", t, Digit);
  }

  /** The RTT layout determines the three fields the scanner returns. */
  lemma RttIs(s: string, p: nat, c: nat, f: nat, g: seq<string>)
    requires RttLaid(s, p, c, f, g)
    ensures p <= |s| && RttAt(s, p) == Some(g)
  {
    var b, e := p + |g[0]|, c + 3 + |g[1]|;
    RttRuns(s, p, b, c, e, f, g);
    RttAtRuns(s, p, g);
  }

  /** The PoP run ends at `b`; "ip:" is found after it with its run from `d` to `e`; "rtt:" is found after that with its digits from `h`; `g` holds the three runs. */
  predicate RttFound(s: string, p: nat, b: nat, d: nat, e: nat, h: nat, g: seq<string>) {
    && p <= |s| && p < b == Span(s, p, NonSpace)
    && SpacedRun(s, b, "ip:", NonSpace) == Some(d) && e == Span(s, d, NonSpace)
    && SpacedRun(s, e, "rtt:", Digit) == Some(h)
    && |g| == 3 && g[0] == s[p..b] && g[1] == s[d..e] && g[2] == s[h..Span(s, h, Digit)]
  }

  /** `RttAt` returns the three runs it locates. */
  lemma RttAtRuns(s: string, p: nat, g: seq<string>)
    requires exists b: nat, d: nat, e: nat, h: nat :: RttFound(s, p, b, d, e, h, g)
    ensures RttAt(s, p) == Some(g)
  {
    var b: nat, d: nat, e: nat, h: nat :| RttFound(s, p, b, d, e, h, g);
    RttAtOf(s, p, b, d, e, h);
    assert [s[p..b], s[d..e], s[h..Span(s, h, Digit)]] == g;
  }

  /** "gateway-" (any case) at `p`, then a name running to the next ':' or the end. */
  predicate GatewayLayout(s: string, p: nat, t: string) {
    |t| > 8 && HasAt(s, p, t) && Lower(t[..8]) == "gateway-" && RunAt(s, p + 8, t[8..], NonColon)
  }

  /** Gateway name: "gateway-" in any case, then a non-empty run without colons. */
  function GatewayAt(s: string, p: nat): (r: Option<seq<string>>)
    requires p <= |s|
    ensures r.Some? ==> |r.value| == 1 && |r.value[0]| > 8
    ensures r.Some? ==> Lower(r.value[0][..8]) == "gateway-" && AllIn(r.value[0][8..], NonColon)
  {
    if HasAt(Lower(s), p, "gateway-") && p + 8 < |s| && s[p + 8] != ':' then
      var e := Span(s, p + 8, NonColon);
      SpanAllIn(s, p + 8, NonColon);
      assert s[p..e][8..] == s[p + 8..e];
      assert s[p..e][..8] == s[p..p + 8];
      LowerSlice(s, p, p + 8);
      Some([s[p..e]])
    else None
  }

  /** The gateway name the scanner returns sits at `p` and runs up to the next ':' or the end. */
  lemma GatewaySound(s: string, p: nat)
    requires p <= |s|
    ensures GatewayAt(s, p).Some? ==> GatewayLayout(s, p, GatewayAt(s, p).value[0])
  {
    if GatewayAt(s, p).Some? {
      var e := Span(s, p + 8, NonColon);
      assert s[p..e][8..] == s[p + 8..e];
    }
  }

  /** The gateway layout determines the name the scanner returns. */
  lemma GatewayIs(s: string, p: nat, t: string)
    requires GatewayLayout(s, p, t)
    ensures p <= |s| && GatewayAt(s, p) == Some([t])
  {
    assert t[..8] == s[p..p + 8];
    LowerSlice(s, p, p + 8);
    assert s[p + 8] == t[8..][0];
    assert s[p..p + |t|] == t;
  }

  /** The slug `s[p..d]` has no dot, `s[d]` is the first dot, and `t` runs from `p` through it to the end of the line. */
  predicate TenantLaid(s: string, p: nat, d: nat, t: string) {
    && HasAt(s, p, t) && p < d && d + 1 < p + |t|
    && Span(s, p, NonDot) == d && s[d] == '.'
    && Span(s, d + 1, NonNewline) == p + |t|
  }

  /** `([^.]+\..+)`: a slug without dots, the first dot, then the rest of the line (at least one character). */
  ghost predicate TenantLayout(s: string, p: nat, t: string) {
    exists d: nat :: TenantLaid(s, p, d, t)
  }

  /** Tenant: a run without dots, ".", then the rest of the line (at least one character). */
  function TenantAt(s: string, p: nat): (r: Option<seq<string>>)
    requires p <= |s|
    ensures r.Some? ==> |r.value| == 1 && '.' in r.value[0]
  {
    var b := Span(s, p, NonDot);
    if p < b && b + 1 < |s| && s[b + 1] != '\n' then
      var e := Span(s, b + 1, NonNewline);
      assert s[p..e][b - p] == '.';
      Some([s[p..e]])
    else None
  }

  /** The tenant the scanner returns runs from `p` through the first dot to the end of the line. */
  lemma TenantSound(s: string, p: nat)
    requires p <= |s|
    ensures TenantAt(s, p).Some? ==> TenantLayout(s, p, TenantAt(s, p).value[0])
  {
    var b := Span(s, p, NonDot);
    if TenantAt(s, p).Some? {
      assert TenantLaid(s, p, b, TenantAt(s, p).value[0]);
    }
  }

  /** The tenant layout determines the text the scanner returns. */
  lemma TenantIs(s: string, p: nat, d: nat, t: string)
    requires TenantLaid(s, p, d, t)
    ensures p <= |s| && TenantAt(s, p) == Some([t])
  {
    assert s[d + 1] == t[d + 1 - p];
  }

  /** The text from `e` on is at most one final line feed. */
  predicate EndOfLine(s: string, e: nat) {
    e == |s| || (e + 1 == |s| && s[e] == '\n')
  }

  /**
    `(.*?);(.*?);(.*)$` at `i`: three one-line fields separated by ';', the first two
    without ';', the last reaching the end of the text or its final line feed.
   */
  predicate AgentLayout(s: string, i: nat, g: seq<string>) {
    && |g| == 3
    && ';' !in g[0] && ';' !in g[1]
    && var a := i + |g[0]|;
       var b := a + 1 + |g[1]|;
       var e := b + 1 + |g[2]|;
       && HasAt(s, i, g[0]) && HasAt(s, a, ";") && HasAt(s, a + 1, g[1]) && HasAt(s, b, ";") && HasAt(s, b + 1, g[2])
       && Span(s, i, NonNewline) == e && EndOfLine(s, e)
  }

  /**
    User agent fields for one choice of where the leading spaces end: the text up to
    the first line feed must reach the end of the string or its final line feed, and
    hold two ';'; the fields are the text before the first, between the two, and after.
   */
  function AgentAt(s: string, n: nat): (r: Option<seq<string>>)
    requires n <= |s|
    ensures r.Some? ==> |r.value| == 3 && ';' !in r.value[0] && ';' !in r.value[1]
    ensures r.Some? ==> AllIn(r.value[2], NonNewline)
  {
    var e := Span(s, n, NonNewline);
    if e == |s| || e + 1 == |s| then
      match IndexOf(s, n, e, ';')
      case None => None
      case Some(i1) =>
        match IndexOf(s, i1 + 1, e, ';')
        case None => None
        case Some(i2) =>
          SpanInside(s, n, NonNewline);
          SliceAllIn(s, i2 + 1, e, NonNewline);
          Some([s[n..i1], s[i1 + 1..i2], s[i2 + 1..e]])
    else None
  }

  /** `AgentAt` once the line end and the two ';' are located. */
  lemma AgentAtOf(s: string, n: nat, i1: nat, i2: nat)
    requires n <= |s| && EndOfLine(s, Span(s, n, NonNewline))
    requires IndexOf(s, n, Span(s, n, NonNewline), ';') == Some(i1)
    requires IndexOf(s, i1 + 1, Span(s, n, NonNewline), ';') == Some(i2)
    ensures AgentAt(s, n) == Some([s[n..i1], s[i1 + 1..i2], s[i2 + 1..Span(s, n, NonNewline)]])
  {
  }

  /**
    The fields `AgentAt` returns are laid out as the pattern says; it fails only when the
    line does not reach the end of the text or holds fewer than two ';'.
   */
  lemma AgentAtSound(s: string, n: nat)
    requires n <= |s|
    ensures AgentAt(s, n).Some? ==> AgentLayout(s, n, AgentAt(s, n).value)
    ensures AgentAt(s, n).None? ==> var e := Span(s, n, NonNewline);
              !EndOfLine(s, e) || forall a, b :: n <= a < b < e ==> s[a] != ';' || s[b] != ';'
  {
    var e := Span(s, n, NonNewline);
    if AgentAt(s, n).Some? {
      var i1 := IndexOf(s, n, e, ';').value;
      var i2 := IndexOf(s, i1 + 1, e, ';').value;
      AgentAtOf(s, n, i1, i2);
      AgentLaidOf(s, n, i1, i2);
    }
  }

  /** A line reaching the end of the text, with two ';', is laid out as the user-agent pattern says. */
  lemma AgentLaidOf(s: string, n: nat, i1: nat, i2: nat)
    requires n <= |s| && EndOfLine(s, Span(s, n, NonNewline))
    requires n <= i1 < i2 < Span(s, n, NonNewline) && s[i1] == ';' && s[i2] == ';'
    requires forall k :: n <= k < i1 ==> s[k] != ';'
    requires forall k :: i1 < k < i2 ==> s[k] != ';'
    ensures AgentLayout(s, n, [s[n..i1], s[i1 + 1..i2], s[i2 + 1..Span(s, n, NonNewline)]])
  {
    var e := Span(s, n, NonNewline);
    var x, y, z := s[n..i1], s[i1 + 1..i2], s[i2 + 1..e];
    assert |x| == i1 - n && |y| == i2 - i1 - 1 && |z| == e - i2 - 1;
    assert HasAt(s, i1, ";") by { assert s[i1..i1 + 1] == [s[i1]]; }
    assert HasAt(s, i2, ";") by { assert s[i2..i2 + 1] == [s[i2]]; }
    NoneOf(s, n, i1, ';');
    NoneOf(s, i1 + 1, i2, ';');
    AgentLayoutFrom(s, n, x, y, z);
  }

  /** Three fields laid out around two ';' up to the end of the line form a user-agent layout. */
  lemma AgentLayoutFrom(s: string, i: nat, x: string, y: string, z: string)
    requires ';' !in x && ';' !in y
    requires && HasAt(s, i, x) && HasAt(s, i + |x|, ";") && HasAt(s, i + |x| + 1, y)
             && HasAt(s, i + |x| + 1 + |y|, ";") && HasAt(s, i + |x| + 1 + |y| + 1, z)
    requires Span(s, i, NonNewline) == i + |x| + 1 + |y| + 1 + |z| && EndOfLine(s, i + |x| + 1 + |y| + 1 + |z|)
    ensures AgentLayout(s, i, [x, y, z])
  {
    var g := [x, y, z];
    assert g[0] == x && g[1] == y && g[2] == z;
  }

  /** A slice holding no `c` at any index does not contain `c`. */
  lemma NoneOf(s: string, i: nat, j: nat, c: char)
    requires i <= j <= |s| && forall k :: i <= k < j ==> s[k] != c
    ensures c !in s[i..j]
  {
  }

  /** Every user-agent layout at `i` makes `AgentAt` match there, with exactly those fields. */
  lemma AgentIs(s: string, i: nat, g: seq<string>)
    requires AgentLayout(s, i, g)
    ensures i <= |s| && AgentAt(s, i) == Some(g)
  {
    var a := i + |g[0]|;
    var b := a + 1 + |g[1]|;
    AgentSemis(s, i, g);
    AgentAtOf(s, i, a, b);
    AgentSlices(s, i, g);
  }

  /** In a user-agent layout the two ';' that `IndexOf` finds are the ones after the first two fields, */
  lemma AgentSemis(s: string, i: nat, g: seq<string>)
    requires AgentLayout(s, i, g)
    ensures i <= |s| && EndOfLine(s, Span(s, i, NonNewline)) && i + |g[0]| + 1 + |g[1]| < Span(s, i, NonNewline)
    ensures IndexOf(s, i, Span(s, i, NonNewline), ';') == Some(i + |g[0]|)
    ensures IndexOf(s, i + |g[0]| + 1, Span(s, i, NonNewline), ';') == Some(i + |g[0]| + 1 + |g[1]|)
  {
    var a := i + |g[0]|;
    var b := a + 1 + |g[1]|;
    var e := b + 1 + |g[2]|;
    assert s[a] == s[a..a + 1][0] && s[b] == s[b..b + 1][0];
    AbsentAt(s, i, g[0], ';');
    AbsentAt(s, a + 1, g[1], ';');
    IndexOfIs(s, i, e, ';', a);
    IndexOfIs(s, a + 1, e, ';', b);
  }

  /** and the three slices between them and the line end are the fields. */
  lemma AgentSlices(s: string, i: nat, g: seq<string>)
    requires AgentLayout(s, i, g)
    ensures i + |g[0]| + 1 + |g[1]| < Span(s, i, NonNewline)
    ensures [s[i..i + |g[0]|], s[i + |g[0]| + 1..i + |g[0]| + 1 + |g[1]|],
             s[i + |g[0]| + 1 + |g[1]| + 1..Span(s, i, NonNewline)]] == g
  {
    assert g == [g[0], g[1], g[2]];
  }

  /** `\s*` then the user-agent fields, for some way of ending the spaces. */
  ghost predicate AgentSpaced(s: string, p: nat, g: seq<string>) {
    exists i: nat :: Blank(s, p, i) && AgentLayout(s, i, g)
  }

  /** The indices where the user-agent fields can start. */
  function AgentFits(s: string): nat -> bool {
    (k: nat) => k <= |s| && AgentAt(s, k).Some?
  }

  /** User agent: `\s*(.*?);(.*?);(.*)$` right after index `p`. */
  function AgentField(s: string, p: nat): (r: Option<seq<string>>)
    requires p <= |s|
    ensures r.Some? ==> |r.value| == 3 && ';' !in r.value[0] && ';' !in r.value[1]
  {
    match LastFrom(p, Span(s, p, Space), AgentFits(s))
    case None => None
    case Some(m) => AgentAt(s, m)
  }

  /**
    The user-agent fields follow the leading spaces as the pattern lays them out;
    of all such layouts, the one whose spaces end last is taken.
   */
  lemma AgentSound(s: string, p: nat)
    requires p <= |s|
    ensures AgentField(s, p).Some? ==>
              exists i: nat :: Blank(s, p, i) && AgentLayout(s, i, AgentField(s, p).value)
                && forall k: nat, h: seq<string> :: Blank(s, p, k) && AgentLayout(s, k, h) ==> k <= i
  {
    var n := Span(s, p, Space);
    LastFromSound(p, n, AgentFits(s));
    if AgentField(s, p).Some? {
      var i := LastFrom(p, n, AgentFits(s)).value;
      AgentAtSound(s, i);
      forall k: nat, h: seq<string> | Blank(s, p, k) && AgentLayout(s, k, h) ensures k <= i {
        AgentIs(s, k, h);
        assert AgentFits(s)(k);
      }
    }
  }

  /** User-agent fields that start right after all the leading spaces are the capture. */
  lemma AgentAfterSpaces(s: string, p: nat, g: seq<string>)
    requires p <= |s| && AgentLayout(s, Span(s, p, Space), g)
    ensures AgentField(s, p) == Some(g)
  {
    AgentIs(s, Span(s, p, Space), g);
    assert AgentFits(s)(Span(s, p, Space));
  }

  /** Every user-agent layout after `p` makes the user-agent pattern match. */
  lemma AgentComplete(s: string, p: nat, i: nat, g: seq<string>)
    requires Blank(s, p, i) && AgentLayout(s, i, g)
    ensures p <= |s| && AgentField(s, p).Some?
  {
    AgentIs(s, i, g);
    LastFromSound(p, Span(s, p, Space), AgentFits(s));
    assert AgentFits(s)(i);
  }

  /** What the text after a pattern's literal looks like when the pattern matches there with groups `g`. */
  ghost predicate Layout(s: string, pat: Pattern, p: nat, g: seq<string>) {
    && |g| == GroupCount(pat)
    && match pat
       case TunnelProcess => ProcessLayout(s, p, g[0])
       case TunnelHost => TokenLayout(s, p, g[0], NonSpaceComma)
       case TunnelAddr => AddrLayout(s, p, g[0])
       case BypassHost => TokenLayout(s, p, g[0], NonSpaceComma)
       case BypassProcess => TokenLayout(s, p, g[0], NonCommaNewline)
       case BypassDestIp => TokenLayout(s, p, g[0], NonSpaceComma)
       case RttFields => RttLayout(s, p, g)
       case Gateway => GatewayLayout(s, p, g[0])
       case Tenant => TenantLayout(s, p, g[0])
       case UserAgent => AgentSpaced(s, p, g)
  }

  /** The patterns whose groups depend on how far the leading spaces are given back. */
  predicate Backtracks(pat: Pattern) {
    pat.TunnelProcess? || pat.BypassProcess? || pat.UserAgent?
  }

  /** The pattern tried right after its literal, at index `p` (no match past the end). */
  function Attempt(s: string, pat: Pattern, p: nat): (r: Option<seq<string>>)
    ensures r.Some? ==> Shaped(pat, r.value)
  {
    if p > |s| then None
    else
      match pat
      case TunnelProcess => LazyField(s, p)
      case TunnelHost => Token(s, p, NonSpaceComma)
      case TunnelAddr => AddrAfterHost(s, p)
      case BypassHost => Token(s, p, NonSpaceComma)
      case BypassProcess => Token(s, p, NonCommaNewline)
      case BypassDestIp => Token(s, p, NonSpaceComma)
      case RttFields => RttAt(s, p)
      case Gateway => GatewayAt(s, p)
      case Tenant => TenantAt(s, p)
      case UserAgent => AgentField(s, p)
  }

  /** What the text after the literal looks like whenever the pattern matches there. */
  lemma AttemptSound(s: string, pat: Pattern, p: nat)
    ensures Attempt(s, pat, p).Some? ==> Layout(s, pat, p, Attempt(s, pat, p).value)
  {
    if p <= |s| {
      match pat
      case TunnelProcess => ProcessSound(s, p);
      case TunnelHost => TokenSound(s, p, NonSpaceComma);
      case TunnelAddr => AddrSound(s, p);
      case BypassHost => TokenSound(s, p, NonSpaceComma);
      case BypassProcess => TokenSound(s, p, NonCommaNewline);
      case BypassDestIp => TokenSound(s, p, NonSpaceComma);
      case RttFields => RttSound(s, p);
      case Gateway => GatewaySound(s, p);
      case Tenant => TenantSound(s, p);
      case UserAgent => AgentSound(s, p);
    }
  }

  /**
    The converse of `AttemptSound`: whenever the text after the literal is laid
    out as the pattern says, the pattern matches, and where no spaces are given back
    its groups are exactly the laid-out ones.
   */
  lemma AttemptComplete(s: string, pat: Pattern, p: nat, g: seq<string>)
    requires Layout(s, pat, p, g)
    ensures Attempt(s, pat, p).Some?
    ensures !Backtracks(pat) ==> Attempt(s, pat, p) == Some(g)
  {
    match pat
    case TunnelProcess =>
      var i: nat :| ProcessLaid(s, p, i, g[0]);
      ProcessComplete(s, p, i, g[0]);
    case TunnelHost =>
      var i: nat :| TokenLaid(s, p, i, g[0], NonSpaceComma);
      TokenIs(s, p, i, g[0]);
      assert g == [g[0]];
    case TunnelAddr =>
      var a: nat, h: string, c: nat, i: nat :| AddrLaid(s, p, a, h, c, i, g[0]);
      AddrIs(s, p, a, h, c, i, g[0]);
      assert g == [g[0]];
    case BypassHost =>
      var i: nat :| TokenLaid(s, p, i, g[0], NonSpaceComma);
      TokenIs(s, p, i, g[0]);
      assert g == [g[0]];
    case BypassProcess =>
      var i: nat :| TokenLaid(s, p, i, g[0], NonCommaNewline);
      TokenFound(s, p, i, g[0], NonCommaNewline);
    case BypassDestIp =>
      var i: nat :| TokenLaid(s, p, i, g[0], NonSpaceComma);
      TokenIs(s, p, i, g[0]);
      assert g == [g[0]];
    case RttFields =>
      var c: nat, f: nat :| RttLaid(s, p, c, f, g);
      RttIs(s, p, c, f, g);
    case Gateway =>
      GatewayIs(s, p, g[0]);
      assert g == [g[0]];
    case Tenant =>
      var d: nat :| TenantLaid(s, p, d, g[0]);
      TenantIs(s, p, d, g[0]);
      assert g == [g[0]];
    case UserAgent =>
      var i: nat :| Blank(s, p, i) && AgentLayout(s, i, g);
      AgentComplete(s, p, i, g);
  }

  predicate KeyAt(s: string, pat: Pattern, k: nat) {
    if IgnoresCase(pat) then HasAt(Lower(s), k, Key(pat)) else HasAt(s, k, Key(pat))
  }

  /** The groups of a match of the whole pattern at index `k`, if it matches there. */
  function MatchAt(s: string, pat: Pattern, k: nat): (r: Option<seq<string>>)
    ensures r.Some? ==> Shaped(pat, r.value)
  {
    if KeyAt(s, pat, k) then Attempt(s, pat, k + KeyLength(pat)) else None
  }

  /** A match at `k`: the literal sits at `k` and the rest of the text is laid out as the pattern says. */
  lemma MatchSound(s: string, pat: Pattern, k: nat)
    ensures MatchAt(s, pat, k).Some? ==> KeyAt(s, pat, k) && Layout(s, pat, k + KeyLength(pat), MatchAt(s, pat, k).value)
  {
    if MatchAt(s, pat, k).Some? {
      AttemptLaid(s, pat, k + KeyLength(pat), MatchAt(s, pat, k).value);
    }
  }

  /** `AttemptSound` for one result. */
  lemma AttemptLaid(s: string, pat: Pattern, p: nat, g: seq<string>)
    requires Attempt(s, pat, p) == Some(g)
    ensures Layout(s, pat, p, g)
  {
    AttemptSound(s, pat, p);
  }

  /** The literal at `k` and a layout after it make the pattern match at `k`, with those groups where nothing backtracks. */
  lemma MatchComplete(s: string, pat: Pattern, k: nat, g: seq<string>)
    requires KeyAt(s, pat, k) && Layout(s, pat, k + KeyLength(pat), g)
    ensures MatchAt(s, pat, k).Some?
    ensures !Backtracks(pat) ==> MatchAt(s, pat, k) == Some(g)
  {
    AttemptComplete(s, pat, k + KeyLength(pat), g);
  }

  /** A match: where it starts and its capture groups. */
  datatype Hit = Hit(at: nat, groups: seq<string>)

  function SearchFrom(s: string, pat: Pattern, k: nat): (r: Option<Hit>)
    requires k <= |s|
    ensures r.Some? ==> k <= r.value.at && MatchAt(s, pat, r.value.at) == Some(r.value.groups)
    decreases |s| - k
  {
    if k + KeyLength(pat) > |s| then None
    else
      match MatchAt(s, pat, k)
      case Some(g) => Some(Hit(k, g))
      case None => SearchFrom(s, pat, k + 1)
  }

  /** The pattern cannot match where its literal does not fit. */
  lemma NoRoomNoMatch(s: string, pat: Pattern, j: nat)
    requires j + KeyLength(pat) > |s|
    ensures MatchAt(s, pat, j).None?
  {
    assert |Lower(s)| == |s|;
  }

  /** No match of the pattern starts at `k` or after, before the one `SearchFrom` finds. */
  lemma {:induction false} SearchFromFirst(s: string, pat: Pattern, k: nat, j: nat)
    requires k <= j <= |s|
    requires SearchFrom(s, pat, k).None? || j < SearchFrom(s, pat, k).value.at
    ensures MatchAt(s, pat, j).None?
    decreases |s| - k
  {
    if k + KeyLength(pat) > |s| {
      NoRoomNoMatch(s, pat, j);
    } else if k < j {
      if MatchAt(s, pat, k).Some? {
        assert false;
      }
      SearchFromSkips(s, pat, k);
      SearchFromFirst(s, pat, k + 1, j);
    }
  }

  /** A match needs room for the pattern's literal. */
  lemma MatchRoom(s: string, pat: Pattern, j: nat)
    requires MatchAt(s, pat, j).Some?
    ensures j + KeyLength(pat) <= |s|
  {
    if j + KeyLength(pat) > |s| {
      NoRoomNoMatch(s, pat, j);
    }
  }

  /** `SearchFrom` finds the first match from `k` on. */
  lemma {:induction false} SearchFromFinds(s: string, pat: Pattern, k: nat, j: nat, g: seq<string>)
    requires k <= j && j + KeyLength(pat) <= |s| && MatchAt(s, pat, j) == Some(g)
    requires forall i: nat :: k <= i < j ==> MatchAt(s, pat, i).None?
    ensures SearchFrom(s, pat, k) == Some(Hit(j, g))
    decreases j - k
  {
    if k < j {
      SearchFromFinds(s, pat, k + 1, j, g);
      SearchFromSkips(s, pat, k);
    } else {
      SearchFromHere(s, pat, k, g);
    }
  }

  /** `SearchFrom` stops at a match, */
  lemma SearchFromHere(s: string, pat: Pattern, k: nat, g: seq<string>)
    requires k + KeyLength(pat) <= |s| && MatchAt(s, pat, k) == Some(g)
    ensures SearchFrom(s, pat, k) == Some(Hit(k, g))
  {
  }

  /** and moves past a position where the pattern does not match. */
  lemma SearchFromSkips(s: string, pat: Pattern, k: nat)
    requires k + KeyLength(pat) <= |s| && MatchAt(s, pat, k).None?
    ensures SearchFrom(s, pat, k) == SearchFrom(s, pat, k + 1)
  {
  }

  /** Python's `re.search`: the leftmost match of `pat` in `s`, if any. */
  function Search(s: string, pat: Pattern): (r: Option<Hit>)
    ensures r.Some? ==> MatchAt(s, pat, r.value.at) == Some(r.value.groups)
    ensures r.Some? ==> Shaped(pat, r.value.groups)
  {
    SearchFrom(s, pat, 0)
  }

  /** The match `Search` finds is the leftmost: the pattern matches nowhere before it, and nowhere at all when it finds none. */
  lemma SearchLeftmost(s: string, pat: Pattern, j: nat)
    requires Search(s, pat).None? || j < Search(s, pat).value.at
    ensures MatchAt(s, pat, j).None?
  {
    if j <= |s| {
      SearchFromFirst(s, pat, 0, j);
    } else {
      NoRoomNoMatch(s, pat, j);
    }
  }

  /** The match `Search` finds: the literal at its position and the layout after it. */
  lemma SearchSound(s: string, pat: Pattern)
    requires Search(s, pat).Some?
    ensures var h := Search(s, pat).value;
            KeyAt(s, pat, h.at) && Layout(s, pat, h.at + KeyLength(pat), h.groups)
  {
    MatchSound(s, pat, Search(s, pat).value.at);
  }

  /** A match with no match before it is the one `Search` finds. */
  lemma SearchFinds(s: string, pat: Pattern, j: nat, g: seq<string>)
    requires MatchAt(s, pat, j) == Some(g)
    requires forall i: nat :: i < j ==> MatchAt(s, pat, i).None?
    ensures Search(s, pat) == Some(Hit(j, g))
  {
    MatchRoom(s, pat, j);
    SearchFromFinds(s, pat, 0, j, g);
  }

  /** With no match at any index, the search finds nothing. */
  lemma SearchMisses(s: string, pat: Pattern)
    requires forall i: nat :: i <= |s| ==> MatchAt(s, pat, i).None?
    ensures Search(s, pat).None?
  {
    if Search(s, pat).Some? {
      var h := Search(s, pat).value;
      MatchRoom(s, pat, h.at);
    }
  }
}
