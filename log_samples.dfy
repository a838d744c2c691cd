/**
  Sample log lines and what the classifier makes of each. Every line is written as
  the concatenation of its words so that where each word sits can be read off; the
  doc comment of each line gives it in one piece.
 */
module LogSamples {

  import opened Wrappers
  import opened Text
  import opened Scan
  import opened Timestamp
  import opened LogRecords
  import opened LogParser

  // ---------------------------------------------------------------------------
  // Reading words off a line

  /** A literal whose first character does not occur in the word at `a` does not start inside that word. */
  lemma NoKeyIn(s: string, a: nat, t: string, key: string)
    requires HasAt(s, a, t) && key != [] && key[0] !in t
    ensures forall i :: a <= i < a + |t| ==> !HasAt(s, i, key)
  {
    forall i | a <= i < a + |t| ensures !HasAt(s, i, key) {
      assert s[i] == t[i - a];
      if i + |key| <= |s| {
        assert s[i..i + |key|][0] == s[i];
      }
    }
  }

  /** A literal does not start where a character of it is missing. */
  lemma Mismatch(s: string, i: nat, key: string, m: nat)
    requires m < |key| && i + m < |s| && s[i + m] != key[m]
    ensures !HasAt(s, i, key)
  {
    if i + |key| <= |s| {
      assert s[i..i + |key|][m] == s[i + m];
    }
  }

  /** Two adjacent words make one. */
  lemma Glue(s: string, a: nat, t: string, u: string)
    requires HasAt(s, a, t) && HasAt(s, a + |t|, u)
    ensures HasAt(s, a, t + u)
  {
    assert s[a..a + |t| + |u|] == s[a..a + |t|] + s[a + |t|..a + |t| + |u|];
  }

  /** A word of the line, lower-cased, is a word of the lower-cased line. */
  lemma LowerAt(s: string, a: nat, t: string)
    requires HasAt(s, a, t)
    ensures HasAt(Lower(s), a, Lower(t))
  {
    forall k | 0 <= k < |t| ensures Lower(s)[a + k] == Lower(t)[k] {
      assert s[a + k] == t[k];
    }
    assert Lower(s)[a..a + |t|] == Lower(t);
  }

  /** Two adjacent words of the line, lower-cased, are adjacent in the lower-cased line. */
  lemma LowerGlue(s: string, a: nat, t: string, u: string, lt: string, lu: string)
    requires HasAt(s, a, t) && HasAt(s, a + |t|, u) && Lower(t) == lt && Lower(u) == lu
    ensures HasAt(Lower(s), a, lt + lu)
  {
    LowerAt(s, a, t);
    LowerAt(s, a + |t|, u);
    Glue(Lower(s), a, lt, lu);
  }

  /** A word of one class, followed by a character outside it, is a whole run of that class. */
  lemma RunWord(s: string, a: nat, t: string, cl: Class)
    requires HasAt(s, a, t) && t != [] && AllIn(t, cl) && !InAt(s, a + |t|, cl)
    ensures RunAt(s, a, t, cl)
  {
    forall k | a <= k < a + |t| ensures In(s[k], cl) {
      assert s[k] == t[k - a];
    }
    SpanIs(s, a, a + |t|, cl);
  }

  /** A word of a text is a word of any line that ends with that text. */
  lemma Shifted(p: string, t: string, i: nat, w: string)
    requires HasAt(t, i, w)
    ensures HasAt(p + t, |p| + i, w)
  {
    assert (p + t)[|p| + i..|p| + i + |w|] == t[i..i + |w|];
  }

  /** A text sits at its own start. */
  lemma Whole(t: string)
    ensures HasAt(t, 0, t)
  {
    assert t[0..|t|] == t;
  }

  /** A text starts with its first part. */
  lemma Leading(p: string, t: string)
    ensures HasAt(p + t, 0, p)
  {
    assert (p + t)[0..|p|] == p;
  }

  /** A word with no whitespace at its ends strips to itself. */
  lemma StripWord(t: string)
    requires t != [] && !IsSpace(t[0]) && !IsSpace(t[|t| - 1])
    ensures Strip(t) == t
  {
    assert t[0..|t|] == t;
    StripUnique(t, t, 0);
  }

  /** A letter missing from the word at `a` in both cases is missing from that stretch of the lower-cased line. */
  lemma NoLetterIn(s: string, a: nat, t: string, lo: char, up: char)
    requires HasAt(s, a, t) && 'a' <= lo <= 'z' && up as int == lo as int - 32 && lo !in t && up !in t
    ensures forall i :: a <= i < a + |t| ==> Lower(s)[i] != lo
  {
    forall i | a <= i < a + |t| ensures Lower(s)[i] != lo {
      assert s[i] == t[i - a];
    }
  }

  /** The same for a lower-case literal in the lower-cased line. */
  lemma NoLowerKeyIn(s: string, a: nat, t: string, key: string, up: char)
    requires HasAt(s, a, t) && key != [] && 'a' <= key[0] <= 'z' && up as int == key[0] as int - 32
    requires key[0] !in t && up !in t
    ensures forall i :: a <= i < a + |t| ==> !HasAt(Lower(s), i, key)
  {
    NoLetterIn(s, a, t, key[0], up);
    forall i | a <= i < a + |t| ensures !HasAt(Lower(s), i, key) {
      if i + |key| <= |s| {
        assert Lower(s)[i..i + |key|][0] == Lower(s)[i];
      }
    }
  }

  /** A text lacking one of the characters of a literal does not contain it. */
  lemma LacksChar(s: string, key: string, m: nat)
    requires m < |key| && forall i :: 0 <= i < |s| ==> s[i] != key[m]
    ensures !Contains(s, key)
  {
    forall i | 0 <= i <= |s| - |key| ensures !HasAt(s, i, key) {
      assert s[i..i + |key|][m] == s[i + m];
    }
  }

  /** The words of a line stay where they are when text is appended. */
  lemma Appended(s: string, u: string)
    ensures forall i, w :: HasAt(s, i, w) ==> HasAt(s + u, i, w)
  {
    forall i, w | HasAt(s, i, w) ensures HasAt(s + u, i, w) {
      assert (s + u)[i..i + |w|] == s[i..i + |w|];
    }
  }

  /** A pattern matches at `k` with what its rest captures after the literal there. */
  lemma MatchOf(s: string, pat: Pattern, k: nat, g: seq<string>)
    requires KeyAt(s, pat, k) && Attempt(s, pat, k + KeyLength(pat)) == Some(g)
    ensures MatchAt(s, pat, k) == Some(g)
  {
  }

  /** The literal of a pattern is not at any index below `j`: the pattern matches nowhere there. */
  lemma NoMatchBelow(s: string, pat: Pattern, j: nat)
    requires forall i: nat :: i < j ==> !KeyAt(s, pat, i)
    ensures forall i: nat :: i < j ==> MatchAt(s, pat, i).None?
  {
  }

  // ---------------------------------------------------------------------------
  // The sample instant

  /** 2 January 2024, 03:04:05.123. */
  const Sampled := DateTime(2024, 1, 2, 3, 4, 5, 123000)

  /** How the agent writes the sample instant: `2024/01/02 03:04:05.123000`. */
  function SampledText(): string {
    "2024/01/02" + " " + "03:04:05" + "." + "123000"
  }

  lemma SampledWritten()
    ensures Valid(Sampled) && Format(Sampled) == SampledText()
  {
    SampledDate();
    SampledClock();
    SampledMicros();
    FormatOf(Sampled, "2024/01/02", "03:04:05", "123000");
  }

  lemma SampledMicros()
    ensures Pad(123000, 6) == "123000"
  {
  }

  /** `Format` from the texts of its three parts. */
  lemma FormatOf(d: DateTime, date: string, clock: string, micros: string)
    requires Valid(d) && DateText(d) == date && ClockText(d) == clock && Pad(d.micro, 6) == micros
    ensures Format(d) == date + " " + clock + "." + micros
  {
  }

  lemma SampledDate()
    ensures Valid(Sampled) && DateText(Sampled) == "2024/01/02"
  {
    assert Pad(2024, 4) == "2024";
  }

  lemma SampledClock()
    ensures Valid(Sampled) && ClockText(Sampled) == "03:04:05"
  {
  }

  /** A line made of the written sample instant and a text starting with a space is stamped with the sample instant. */
  lemma SampledStamp(text: string)
    requires text != [] && text[0] == ' '
    ensures LineStamp(SampledText() + text) == At(ToMicros(Sampled))
  {
    SampledWritten();
    ReadFormatted(Sampled, text);
  }

  // ---------------------------------------------------------------------------
  // A tunnelled connection

  /**
    `2024/01/02 03:04:05.123000 Tunneling flow from process: chrome.exe to host: example.com, addr:93.184.216.34`
   */
  function TunnelLine(): string {
    SampledText() + TunnelText()
  }

  function TunnelText(): string {
    " " + "Tunneling flow" + " from " + "process:" + " " + "c" + "h" + "rome.exe" + " to "
      + "host:" + " " + "example.com" + "," + " " + "addr:" + "93.184.216.34"
  }

  /** Where the words of the tunnel line sit. */
  predicate TunnelWords(s: string) {
    && |s| == 107 && HasAt(s, 0, SampledText()) && HasAt(s, 26, " ") && HasAt(s, 27, "Tunneling flow")
    && HasAt(s, 41, " from ") && HasAt(s, 47, "process:") && HasAt(s, 55, " ")
    && HasAt(s, 56, "c") && HasAt(s, 57, "h") && HasAt(s, 58, "rome.exe") && HasAt(s, 66, " to ")
    && HasAt(s, 70, "host:") && HasAt(s, 75, " ") && HasAt(s, 76, "example.com") && HasAt(s, 87, ",")
    && HasAt(s, 88, " ") && HasAt(s, 89, "addr:") && HasAt(s, 94, "93.184.216.34")
  }

  lemma TunnelLineWords()
    ensures TunnelWords(TunnelLine())
  {
    var p, t := SampledText(), TunnelText();
    Leading(p, t);
    TunnelTextLength();
    TunnelTextAt0();
    Shifted(p, t, 0, " ");
    TunnelTextAt1();
    Shifted(p, t, 1, "Tunneling flow");
    TunnelTextAt15();
    Shifted(p, t, 15, " from ");
    TunnelTextAt21();
    Shifted(p, t, 21, "process:");
    TunnelTextAt29();
    Shifted(p, t, 29, " ");
    TunnelTextAt30();
    Shifted(p, t, 30, "c");
    TunnelTextAt31();
    Shifted(p, t, 31, "h");
    TunnelTextAt32();
    Shifted(p, t, 32, "rome.exe");
    TunnelTextAt40();
    Shifted(p, t, 40, " to ");
    TunnelTextAt44();
    Shifted(p, t, 44, "host:");
    TunnelTextAt49();
    Shifted(p, t, 49, " ");
    TunnelTextAt50();
    Shifted(p, t, 50, "example.com");
    TunnelTextAt61();
    Shifted(p, t, 61, ",");
    TunnelTextAt62();
    Shifted(p, t, 62, " ");
    TunnelTextAt63();
    Shifted(p, t, 63, "addr:");
    TunnelTextAt68();
    Shifted(p, t, 68, "93.184.216.34");
  }

  lemma TunnelTextLength() ensures |TunnelText()| == 81 {}
  lemma TunnelTextAt0() ensures HasAt(TunnelText(), 0, " ") {}
  lemma TunnelTextAt1() ensures HasAt(TunnelText(), 1, "Tunneling flow") {}
  lemma TunnelTextAt15() ensures HasAt(TunnelText(), 15, " from ") {}
  lemma TunnelTextAt21() ensures HasAt(TunnelText(), 21, "process:") {}
  lemma TunnelTextAt29() ensures HasAt(TunnelText(), 29, " ") {}
  lemma TunnelTextAt30() ensures HasAt(TunnelText(), 30, "c") {}
  lemma TunnelTextAt31() ensures HasAt(TunnelText(), 31, "h") {}
  lemma TunnelTextAt32() ensures HasAt(TunnelText(), 32, "rome.exe") {}
  lemma TunnelTextAt40() ensures HasAt(TunnelText(), 40, " to ") {}
  lemma TunnelTextAt44() ensures HasAt(TunnelText(), 44, "host:") {}
  lemma TunnelTextAt49() ensures HasAt(TunnelText(), 49, " ") {}
  lemma TunnelTextAt50() ensures HasAt(TunnelText(), 50, "example.com") {}
  lemma TunnelTextAt61() ensures HasAt(TunnelText(), 61, ",") {}
  lemma TunnelTextAt62() ensures HasAt(TunnelText(), 62, " ") {}
  lemma TunnelTextAt63() ensures HasAt(TunnelText(), 63, "addr:") {}
  lemma TunnelTextAt68() ensures HasAt(TunnelText(), 68, "93.184.216.34") {}

  /** "process:" first occurs at 47, */
  lemma TunnelProcessFirst(s: string)
    requires TunnelWords(s)
    ensures forall i: nat :: i < 47 ==> MatchAt(s, TunnelProcess, i).None?
  {
    NoKeyIn(s, 0, SampledText(), "process:");
    NoKeyIn(s, 26, " ", "process:");
    NoKeyIn(s, 27, "Tunneling flow", "process:");
    NoKeyIn(s, 41, " from ", "process:");
    NoMatchBelow(s, TunnelProcess, 47);
  }

  /** and the process field after it is "chrome.exe", ended by " to host:"; */
  lemma TunnelProcessLaid(s: string)
    requires TunnelWords(s)
    ensures && Span(s, 55, Space) == 56 && ProcessLaid(s, 55, 56, "chrome.exe")
            && forall k :: 56 <= k < 66 ==> !ProcessEndAt(s, k)
  {
    SpanIs(s, 55, 56, Space);
    Glue(s, 56, "c", "h");
    Glue(s, 56, "ch", "rome.exe");
    assert "ch" + "rome.exe" == "chrome.exe";
    Glue(s, 66, " to ", "host:");
    assert " to " + "host:" == " to host:";
    AbsentAt(s, 56, "chrome.exe", ',');
    NoKeyIn(s, 56, "chrome.exe", " to host:");
  }

  lemma TunnelProcessAt(s: string)
    requires TunnelWords(s)
    ensures MatchAt(s, TunnelProcess, 47) == Some(["chrome.exe"])
  {
    assert LazyField(s, 55) == Some(["chrome.exe"]) by {
      TunnelProcessLaid(s);
      ProcessIs(s, 55, "chrome.exe");
    }
    assert KeyAt(s, TunnelProcess, 47);
    assert Attempt(s, TunnelProcess, 55) == LazyField(s, 55);
  }

  lemma TunnelProcessFound(s: string)
    requires TunnelWords(s)
    ensures Search(s, TunnelProcess) == Some(Hit(47, ["chrome.exe"]))
  {
    TunnelProcessFirst(s);
    TunnelProcessAt(s);
    SearchFinds(s, TunnelProcess, 47, ["chrome.exe"]);
  }

  /** "host:" first occurs at 70: the "h" of "chrome" is followed by "r", */
  lemma TunnelHostKeyFirst(s: string)
    requires TunnelWords(s)
    ensures forall i :: 0 <= i < 70 ==> !HasAt(s, i, "host:")
  {
    NoKeyIn(s, 0, SampledText(), "host:");
    NoKeyIn(s, 26, " ", "host:");
    NoKeyIn(s, 27, "Tunneling flow", "host:");
    NoKeyIn(s, 41, " from ", "host:");
    NoKeyIn(s, 47, "process:", "host:");
    NoKeyIn(s, 55, " ", "host:");
    NoKeyIn(s, 56, "c", "host:");
    assert s[58] == "rome.exe"[0];
    Mismatch(s, 57, "host:", 1);
    NoKeyIn(s, 58, "rome.exe", "host:");
    NoKeyIn(s, 66, " to ", "host:");
  }

  /** so both host patterns first match there; */
  lemma TunnelHostFirst(s: string)
    requires TunnelWords(s)
    ensures forall i: nat :: i < 70 ==> MatchAt(s, TunnelHost, i).None?
    ensures forall i: nat :: i < 70 ==> MatchAt(s, TunnelAddr, i).None?
  {
    TunnelHostKeyFirst(s);
    NoMatchBelow(s, TunnelHost, 70);
    NoMatchBelow(s, TunnelAddr, 70);
  }

  /** after one space the host run is "example.com", ended by the comma; */
  lemma TunnelHostLaid(s: string)
    requires TunnelWords(s)
    ensures TokenLaid(s, 75, 76, "example.com", NonSpaceComma)
  {
    SpanIs(s, 75, 76, Space);
    RunWord(s, 76, "example.com", NonSpaceComma);
  }

  lemma TunnelHostAt(s: string)
    requires TunnelWords(s)
    ensures MatchAt(s, TunnelHost, 70) == Some(["example.com"])
  {
    assert Token(s, 75, NonSpaceComma) == Some(["example.com"]) by {
      TunnelHostLaid(s);
      TokenIs(s, 75, 76, "example.com");
    }
    assert KeyAt(s, TunnelHost, 70);
    assert Attempt(s, TunnelHost, 75) == Token(s, 75, NonSpaceComma);
  }

  lemma TunnelHostFound(s: string)
    requires TunnelWords(s)
    ensures Search(s, TunnelHost) == Some(Hit(70, ["example.com"]))
  {
    TunnelHostFirst(s);
    TunnelHostAt(s);
    SearchFinds(s, TunnelHost, 70, ["example.com"]);
  }

  /** after the comma and a space come "addr:" and the address run "93.184.216.34", which ends the line. */
  lemma TunnelAddrLaid(s: string)
    requires TunnelWords(s)
    ensures AddrLaid(s, 75, 76, "example.com", 89, 94, "93.184.216.34")
  {
    TunnelHostLaid(s);
    assert s[88] == " "[0];
    SpanIs(s, 88, 89, Space);
    RunWord(s, 94, "93.184.216.34", NonSpaceComma);
  }

  lemma TunnelAddrAt(s: string)
    requires TunnelWords(s)
    ensures MatchAt(s, TunnelAddr, 70) == Some(["93.184.216.34"])
  {
    assert AddrAfterHost(s, 75) == Some(["93.184.216.34"]) by {
      TunnelAddrLaid(s);
      AddrIs(s, 75, 76, "example.com", 89, 94, "93.184.216.34");
    }
    assert KeyAt(s, TunnelAddr, 70);
    assert Attempt(s, TunnelAddr, 75) == AddrAfterHost(s, 75);
  }

  lemma TunnelAddrFound(s: string)
    requires TunnelWords(s)
    ensures Search(s, TunnelAddr) == Some(Hit(70, ["93.184.216.34"]))
  {
    TunnelHostFirst(s);
    TunnelAddrAt(s);
    SearchFinds(s, TunnelAddr, 70, ["93.184.216.34"]);
  }

  /** A line starting with the written sample instant and a space is stamped with the sample instant. */
  lemma StampedSampled(s: string)
    requires |s| > 26 && HasAt(s, 0, SampledText()) && s[26] == ' '
    ensures LineStamp(s) == At(ToMicros(Sampled))
  {
    assert s == SampledText() + s[26..];
    SampledStamp(s[26..]);
  }

  /** The tunnel line is a stamped tunnelling line, */
  lemma TunnelLineKind(s: string)
    requires TunnelWords(s)
    ensures LineStamp(s) == At(ToMicros(Sampled)) && IsTunnelLine(s)
  {
    StampedSampled(s);
    TunnelingAt(s, 27);
  }

  /** Case aside, "tunneling flow" is where "Tunneling flow" is written. */
  lemma TunnelingAt(s: string, i: nat)
    requires HasAt(s, i, "Tunneling flow")
    ensures Contains(Lower(s), "tunneling flow")
  {
    LowerAt(s, i, "Tunneling flow");
    assert Lower("Tunneling flow") == "tunneling flow";
  }

  /** The tunnel line is stamped, a tunnelling line, and each of its three patterns finds its field, */
  lemma TunnelFound(s: string)
    requires TunnelWords(s)
    ensures LineStamp(s) == At(ToMicros(Sampled)) && IsTunnelLine(s)
    ensures Search(s, TunnelProcess) == Some(Hit(47, ["chrome.exe"]))
    ensures Search(s, TunnelHost) == Some(Hit(70, ["example.com"]))
    ensures Search(s, TunnelAddr) == Some(Hit(70, ["93.184.216.34"]))
  {
    TunnelLineKind(s);
    TunnelProcessFound(s);
    TunnelHostFound(s);
    TunnelAddrFound(s);
  }

  /**
    so it gives the tunnel row of the sample instant with process "chrome.exe", host
    "example.com" and address "93.184.216.34".
   */
  lemma TunnelRowOf(s: string)
    requires LineStamp(s) == At(ToMicros(Sampled)) && IsTunnelLine(s)
    requires Search(s, TunnelProcess) == Some(Hit(47, ["chrome.exe"]))
    requires Search(s, TunnelHost) == Some(Hit(70, ["example.com"]))
    requires Search(s, TunnelAddr) == Some(Hit(70, ["93.184.216.34"]))
    ensures TunnelOf(s) == Some(Stamped(ToMicros(Sampled), Flow("chrome.exe", "example.com", "93.184.216.34")))
  {
    ChromeStripped();
  }

  lemma ChromeStripped()
    ensures Strip("chrome.exe") == "chrome.exe"
  {
    StripWord("chrome.exe");
  }

  lemma TunnelSample()
    ensures TunnelOf(TunnelLine()) == Some(Stamped(ToMicros(Sampled), Flow("chrome.exe", "example.com", "93.184.216.34")))
  {
    TunnelLineWords();
    TunnelFound(TunnelLine());
    TunnelRowOf(TunnelLine());
  }

  // ---------------------------------------------------------------------------
  // Connections that bypass the tunnel

  /** `2024/01/02 03:04:05.123000 BypassAppMgr exception host: zoom.us, Dest IP: 10.0.0.1` */
  function BypassLine(): string {
    SampledText() + BypassApp() + BypassHostPart() + BypassIpPart()
  }

  function BypassApp(): string {
    " " + "By" + "p" + "assA" + "p" + "p" + "Mgr" + " "
  }

  function BypassHostPart(): string {
    "exce" + "p" + "tion host:" + " " + "zoom.us" + "," + " "
  }

  function BypassIpPart(): string {
    "Dest I" + "P" + ":" + " " + "10.0.0.1"
  }

  /** The same line naming its process: `…, Dest IP: 10.0.0.1, process: zoom.exe` */
  function BypassProcessLine(): string {
    BypassLine() + ProcessTail()
  }

  function ProcessTail(): string {
    "," + " " + "process:" + " " + "zoom.exe"
  }

  /** Where the words of the bypass line sit: the instant, then three parts, */
  predicate BypassWords(s: string) {
    82 <= |s| && HasAt(s, 0, SampledText()) && AppWords(s) && HostWords(s) && IpWords(s)
  }

  /** the bypass manager, */
  predicate AppWords(s: string) {
    && HasAt(s, 26, BypassApp()) && HasAt(s, 26, " ") && HasAt(s, 27, "By") && HasAt(s, 29, "p")
    && HasAt(s, 30, "assA") && HasAt(s, 34, "p") && HasAt(s, 35, "p") && HasAt(s, 36, "Mgr") && HasAt(s, 39, " ")
  }

  /** the exception host, */
  predicate HostWords(s: string) {
    && HasAt(s, 40, BypassHostPart()) && HasAt(s, 40, "exce") && HasAt(s, 44, "p") && HasAt(s, 45, "tion host:")
    && HasAt(s, 55, " ") && HasAt(s, 56, "zoom.us") && HasAt(s, 63, ",") && HasAt(s, 64, " ")
  }

  /** and the destination address. */
  predicate IpWords(s: string) {
    && HasAt(s, 65, BypassIpPart()) && HasAt(s, 65, "Dest I") && HasAt(s, 71, "P") && HasAt(s, 72, ":")
    && HasAt(s, 73, " ") && HasAt(s, 74, "10.0.0.1")
  }

  /** Where the words of the process part sit. */
  predicate ProcessWords(s: string) {
    && |s| == 101 && HasAt(s, 82, ProcessTail()) && HasAt(s, 82, ",") && HasAt(s, 83, " ")
    && HasAt(s, 84, "process:") && HasAt(s, 92, " ") && HasAt(s, 93, "zoom.exe")
  }

  /** The words of a text are words of any line that ends with it, shifted by what comes before. */
  lemma ShiftedAll(p: string, t: string)
    ensures forall i: nat, w | HasAt(t, i, w) :: HasAt(p + t, |p| + i, w)
  {
    forall i: nat, w | HasAt(t, i, w) ensures HasAt(p + t, |p| + i, w) {
      Shifted(p, t, i, w);
    }
  }

  lemma BypassAppWords()
    ensures var t := BypassApp();
      && |t| == 14 && HasAt(t, 0, t) && HasAt(t, 0, " ") && HasAt(t, 1, "By") && HasAt(t, 3, "p") && HasAt(t, 4, "assA")
      && HasAt(t, 8, "p") && HasAt(t, 9, "p") && HasAt(t, 10, "Mgr") && HasAt(t, 13, " ")
  {
    AppLength();
    Whole(BypassApp());
    AppAt0();
    AppAt1();
    AppAt3();
    AppAt4();
    AppAt8();
    AppAt9();
    AppAt10();
    AppAt13();
  }

  lemma AppLength() ensures |BypassApp()| == 14 {}
  lemma AppAt0() ensures HasAt(BypassApp(), 0, " ") {}
  lemma AppAt1() ensures HasAt(BypassApp(), 1, "By") {}
  lemma AppAt3() ensures HasAt(BypassApp(), 3, "p") {}
  lemma AppAt4() ensures HasAt(BypassApp(), 4, "assA") {}
  lemma AppAt8() ensures HasAt(BypassApp(), 8, "p") {}
  lemma AppAt9() ensures HasAt(BypassApp(), 9, "p") {}
  lemma AppAt10() ensures HasAt(BypassApp(), 10, "Mgr") {}
  lemma AppAt13() ensures HasAt(BypassApp(), 13, " ") {}

  lemma BypassHostWords()
    ensures var t := BypassHostPart();
      && |t| == 25 && HasAt(t, 0, t) && HasAt(t, 0, "exce") && HasAt(t, 4, "p") && HasAt(t, 5, "tion host:") && HasAt(t, 15, " ")
      && HasAt(t, 16, "zoom.us") && HasAt(t, 23, ",") && HasAt(t, 24, " ")
  {
    HostPartLength();
    Whole(BypassHostPart());
    HostPartAt0();
    HostPartAt4();
    HostPartAt5();
    HostPartAt15();
    HostPartAt16();
    HostPartAt23();
    HostPartAt24();
  }

  lemma HostPartLength() ensures |BypassHostPart()| == 25 {}
  lemma HostPartAt0() ensures HasAt(BypassHostPart(), 0, "exce") {}
  lemma HostPartAt4() ensures HasAt(BypassHostPart(), 4, "p") {}
  lemma HostPartAt5() ensures HasAt(BypassHostPart(), 5, "tion host:") {}
  lemma HostPartAt15() ensures HasAt(BypassHostPart(), 15, " ") {}
  lemma HostPartAt16() ensures HasAt(BypassHostPart(), 16, "zoom.us") {}
  lemma HostPartAt23() ensures HasAt(BypassHostPart(), 23, ",") {}
  lemma HostPartAt24() ensures HasAt(BypassHostPart(), 24, " ") {}

  lemma BypassIpWords()
    ensures var t := BypassIpPart();
      && |t| == 17 && HasAt(t, 0, t) && HasAt(t, 0, "Dest I") && HasAt(t, 6, "P") && HasAt(t, 7, ":") && HasAt(t, 8, " ")
      && HasAt(t, 9, "10.0.0.1")
  {
    IpPartLength();
    Whole(BypassIpPart());
    IpPartAt0();
    IpPartAt6();
    IpPartAt7();
    IpPartAt8();
    IpPartAt9();
  }

  lemma IpPartLength() ensures |BypassIpPart()| == 17 {}
  lemma IpPartAt0() ensures HasAt(BypassIpPart(), 0, "Dest I") {}
  lemma IpPartAt6() ensures HasAt(BypassIpPart(), 6, "P") {}
  lemma IpPartAt7() ensures HasAt(BypassIpPart(), 7, ":") {}
  lemma IpPartAt8() ensures HasAt(BypassIpPart(), 8, " ") {}
  lemma IpPartAt9() ensures HasAt(BypassIpPart(), 9, "10.0.0.1") {}

  /** The parts of a line made of four parts sit one after the other. */
  lemma FourParts(p: string, a: string, h: string, d: string)
    ensures var s := p + a + h + d;
      && |s| == |p| + |a| + |h| + |d| && HasAt(s, 0, p) && HasAt(s, |p|, a) && HasAt(s, |p| + |a|, h)
      && HasAt(s, |p| + |a| + |h|, d)
  {
    var s := p + a + h + d;
    assert s[..|p|] == p;
    assert s[|p|..|p| + |a|] == a;
    assert s[|p| + |a|..|p| + |a| + |h|] == h;
    assert s[|p| + |a| + |h|..] == d;
  }

  /** The parts of a line made of three parts sit one after the other. */
  lemma ThreeParts(p: string, a: string, h: string)
    ensures var s := p + a + h;
      && |s| == |p| + |a| + |h| && HasAt(s, 0, p) && HasAt(s, |p|, a) && HasAt(s, |p| + |a|, h)
  {
    var s := p + a + h;
    assert s[..|p|] == p;
    assert s[|p|..|p| + |a|] == a;
    assert s[|p| + |a|..] == h;
  }

  /** A word of a word of a line is a word of the line. */
  lemma WithinAll(s: string, a: nat, t: string)
    requires HasAt(s, a, t)
    ensures forall i: nat, w | HasAt(t, i, w) :: HasAt(s, a + i, w)
  {
    forall i: nat, w | HasAt(t, i, w) ensures HasAt(s, a + i, w) {
      Within(s, a, t, i, w);
    }
  }

  lemma Within(s: string, a: nat, t: string, i: nat, w: string)
    requires HasAt(s, a, t) && HasAt(t, i, w)
    ensures HasAt(s, a + i, w)
  {
    forall k | 0 <= k < |w| ensures s[a + i + k] == w[k] {
      assert s[a + i + k] == s[a..a + |t|][i + k];
      assert w[k] == t[i..i + |w|][k];
    }
  }

  lemma AppWordsOf(s: string)
    requires HasAt(s, 26, BypassApp())
    ensures AppWords(s)
  {
    BypassAppWords();
    WithinAll(s, 26, BypassApp());
  }

  lemma HostWordsOf(s: string)
    requires HasAt(s, 40, BypassHostPart())
    ensures HostWords(s)
  {
    BypassHostWords();
    WithinAll(s, 40, BypassHostPart());
  }

  lemma IpWordsOf(s: string)
    requires HasAt(s, 65, BypassIpPart())
    ensures IpWords(s)
  {
    BypassIpWords();
    WithinAll(s, 65, BypassIpPart());
  }

  lemma BypassLineWords()
    ensures BypassWords(BypassLine()) && |BypassLine()| == 82
  {
    var s := BypassLine();
    assert |SampledText()| == 26;
    BypassAppWords();
    BypassHostWords();
    BypassIpWords();
    FourParts(SampledText(), BypassApp(), BypassHostPart(), BypassIpPart());
    AppWordsOf(s);
    HostWordsOf(s);
    IpWordsOf(s);
  }

  lemma BypassProcessLineWords()
    ensures BypassWords(BypassProcessLine()) && ProcessWords(BypassProcessLine())
  {
    var s, u := BypassLine(), ProcessTail();
    BypassLineWords();
    BypassWordsKept(s, u);
    ProcessTailWords();
    Shifted(s, u, 0, u);
    Shifted(s, u, 0, ",");
    Shifted(s, u, 1, " ");
    Shifted(s, u, 2, "process:");
    Shifted(s, u, 10, " ");
    Shifted(s, u, 11, "zoom.exe");
  }

  lemma BypassWordsKept(s: string, u: string)
    requires BypassWords(s)
    ensures BypassWords(s + u)
  {
    Appended(s, u);
  }

  lemma ProcessTailWords()
    ensures var u := ProcessTail();
      && |u| == 19 && HasAt(u, 0, u) && HasAt(u, 0, ",") && HasAt(u, 1, " ") && HasAt(u, 2, "process:")
      && HasAt(u, 10, " ") && HasAt(u, 11, "zoom.exe")
  {
    TailLength();
    Whole(ProcessTail());
    TailAt0();
    TailAt1();
    TailAt2();
    TailAt10();
    TailAt11();
  }

  lemma TailLength() ensures |ProcessTail()| == 19 {}
  lemma TailAt0() ensures HasAt(ProcessTail(), 0, ",") {}
  lemma TailAt1() ensures HasAt(ProcessTail(), 1, " ") {}
  lemma TailAt2() ensures HasAt(ProcessTail(), 2, "process:") {}
  lemma TailAt10() ensures HasAt(ProcessTail(), 10, " ") {}
  lemma TailAt11() ensures HasAt(ProcessTail(), 11, "zoom.exe") {}

  /** The letters that the proofs below look for, and which parts of the line lack them. */
  lemma StampLetters()
    ensures var t := SampledText(); 'w' !in t && 'W' !in t && 'e' !in t && 'E' !in t && 'd' !in t && 'D' !in t
  {
  }

  lemma AppLetters()
    ensures var t := BypassApp(); 'w' !in t && 'W' !in t && 'e' !in t && 'E' !in t && 'd' !in t && 'D' !in t
  {
  }

  lemma HostPartLetters()
    ensures var t := BypassHostPart(); 'w' !in t && 'W' !in t && 'd' !in t && 'D' !in t
  {
  }

  lemma IpPartLetters()
    ensures 'w' !in BypassIpPart() && 'W' !in BypassIpPart()
  {
  }

  lemma TailLetters()
    ensures 'w' !in ProcessTail() && 'W' !in ProcessTail()
  {
  }

  /** No "w" in any case on the bypass line, */
  lemma BypassNoW(s: string)
    requires BypassWords(s)
    ensures forall i :: 0 <= i < 82 ==> Lower(s)[i] != 'w'
  {
    StampLetters();
    AppLetters();
    HostPartLetters();
    IpPartLetters();
    NoLetterIn(s, 0, SampledText(), 'w', 'W');
    NoLetterIn(s, 26, BypassApp(), 'w', 'W');
    NoLetterIn(s, 40, BypassHostPart(), 'w', 'W');
    NoLetterIn(s, 65, BypassIpPart(), 'w', 'W');
  }

  /** nor in its process part, */
  lemma ProcessNoW(s: string)
    requires ProcessWords(s)
    ensures forall i :: 82 <= i < 101 ==> Lower(s)[i] != 'w'
  {
    TailLetters();
    NoLetterIn(s, 82, ProcessTail(), 'w', 'W');
  }

  /** so it is not a tunnelling line; it does name the bypass manager. */
  lemma BypassKind(s: string)
    requires BypassWords(s) && (|s| == 82 || ProcessWords(s))
    ensures LineStamp(s) == At(ToMicros(Sampled)) && !IsTunnelLine(s) && Contains(Lower(s), "bypassappmgr")
  {
    StampedSampled(s);
    BypassNoW(s);
    if |s| > 82 {
      ProcessNoW(s);
    }
    LacksChar(Lower(s), "tunneling flow", 13);
    BypassAppAt(s);
  }

  lemma BypassAppAt(s: string)
    requires AppWords(s)
    ensures Contains(Lower(s), "bypassappmgr")
  {
    Glue(s, 27, "By", "p");
    Glue(s, 27, "Byp", "assA");
    Glue(s, 27, "BypassA", "p");
    Glue(s, 27, "BypassAp", "p");
    Glue(s, 27, "BypassApp", "Mgr");
    LowerAt(s, 27, "BypassAppMgr");
    assert Lower("BypassAppMgr") == "bypassappmgr";
    assert HasAt(Lower(s), 27, "bypassappmgr");
  }

  /** "exception host:", in any case, first occurs at 40, */
  lemma BypassHostFirst(s: string)
    requires HasAt(s, 0, SampledText()) && AppWords(s)
    ensures forall i: nat :: i < 40 ==> MatchAt(s, BypassHost, i).None?
  {
    StampLetters();
    AppLetters();
    NoLowerKeyIn(s, 0, SampledText(), "exception host:", 'E');
    NoLowerKeyIn(s, 26, BypassApp(), "exception host:", 'E');
    NoMatchBelow(s, BypassHost, 40);
  }

  /** where it is followed by the host "zoom.us", ended by a comma; */
  lemma BypassHostKey(s: string)
    requires HostWords(s)
    ensures KeyAt(s, BypassHost, 40)
  {
    Glue(s, 40, "exce", "p");
    Glue(s, 40, "excep", "tion host:");
    LowerAt(s, 40, "exception host:");
    assert Lower("exception host:") == "exception host:";
  }

  lemma BypassHostToken(s: string)
    requires HostWords(s)
    ensures Token(s, 55, NonSpaceComma) == Some(["zoom.us"])
  {
    SpanIs(s, 55, 56, Space);
    RunWord(s, 56, "zoom.us", NonSpaceComma);
    TokenIs(s, 55, 56, "zoom.us");
  }

  lemma BypassHostAt(s: string)
    requires HostWords(s)
    ensures MatchAt(s, BypassHost, 40) == Some(["zoom.us"])
  {
    BypassHostKey(s);
    BypassHostToken(s);
    assert Attempt(s, BypassHost, 55) == Token(s, 55, NonSpaceComma);
  }

  lemma BypassHostFound(s: string)
    requires BypassWords(s)
    ensures Search(s, BypassHost) == Some(Hit(40, ["zoom.us"]))
  {
    BypassHostFirst(s);
    BypassHostAt(s);
    SearchFinds(s, BypassHost, 40, ["zoom.us"]);
  }

  /** "dest ip:", in any case, first occurs at 65, */
  lemma BypassIpFirst(s: string)
    requires HasAt(s, 0, SampledText()) && AppWords(s) && HostWords(s)
    ensures forall i: nat :: i < 65 ==> MatchAt(s, BypassDestIp, i).None?
  {
    StampLetters();
    AppLetters();
    HostPartLetters();
    NoLowerKeyIn(s, 0, SampledText(), "dest ip:", 'D');
    NoLowerKeyIn(s, 26, BypassApp(), "dest ip:", 'D');
    NoLowerKeyIn(s, 40, BypassHostPart(), "dest ip:", 'D');
    NoMatchBelow(s, BypassDestIp, 65);
  }

  /** where it is followed by the address "10.0.0.1", ended by a comma or the end of the line; */
  lemma BypassIpKey(s: string)
    requires IpWords(s)
    ensures KeyAt(s, BypassDestIp, 65)
  {
    Glue(s, 65, "Dest I", "P");
    Glue(s, 65, "Dest IP", ":");
    LowerAt(s, 65, "Dest IP:");
    assert Lower("Dest IP:") == "dest ip:";
  }

  lemma BypassIpToken(s: string)
    requires IpWords(s) && 82 <= |s| && (|s| == 82 || s[82] == ',')
    ensures Token(s, 73, NonSpaceComma) == Some(["10.0.0.1"])
  {
    SpanIs(s, 73, 74, Space);
    RunWord(s, 74, "10.0.0.1", NonSpaceComma);
    TokenIs(s, 73, 74, "10.0.0.1");
  }

  lemma BypassIpAt(s: string)
    requires IpWords(s) && 82 <= |s| && (|s| == 82 || s[82] == ',')
    ensures MatchAt(s, BypassDestIp, 65) == Some(["10.0.0.1"])
  {
    BypassIpKey(s);
    BypassIpToken(s);
    assert Attempt(s, BypassDestIp, 73) == Token(s, 73, NonSpaceComma);
  }

  lemma BypassIpFound(s: string)
    requires BypassWords(s) && (|s| == 82 || s[82] == ',')
    ensures Search(s, BypassDestIp) == Some(Hit(65, ["10.0.0.1"]))
  {
    BypassIpFirst(s);
    BypassIpAt(s);
    SearchFinds(s, BypassDestIp, 65, ["10.0.0.1"]);
  }

  /** "process:", in any case, is nowhere in the first 82 characters: no "p" there is followed by "r". */
  lemma BypassNoProcessKey(s: string)
    requires BypassWords(s)
    ensures forall i: nat :: i < 82 ==> !KeyAt(s, BypassProcess, i)
  {
    BypassNoProcessHead(s);
    BypassNoProcessRest(s);
  }

  lemma BypassNoProcessHead(s: string)
    requires HasAt(s, 0, SampledText()) && AppWords(s)
    ensures forall i: nat :: i < 40 ==> !HasAt(Lower(s), i, "process:")
  {
    var k := "process:";
    NoLowerKeyIn(s, 0, SampledText(), k, 'P');
    NoLowerKeyIn(s, 26, " ", k, 'P');
    NoLowerKeyIn(s, 27, "By", k, 'P');
    assert s[30] == "assA"[0];
    Mismatch(Lower(s), 29, k, 1);
    NoLowerKeyIn(s, 30, "assA", k, 'P');
    assert s[35] == "p"[0];
    Mismatch(Lower(s), 34, k, 1);
    assert s[36] == "Mgr"[0];
    Mismatch(Lower(s), 35, k, 1);
    NoLowerKeyIn(s, 36, "Mgr", k, 'P');
    NoLowerKeyIn(s, 39, " ", k, 'P');
  }

  lemma BypassNoProcessRest(s: string)
    requires HostWords(s) && IpWords(s)
    ensures forall i :: 40 <= i < 82 ==> !HasAt(Lower(s), i, "process:")
  {
    BypassNoProcessHost(s);
    BypassNoProcessIp(s);
  }

  lemma BypassNoProcessHost(s: string)
    requires HostWords(s)
    ensures forall i :: 40 <= i < 65 ==> !HasAt(Lower(s), i, "process:")
  {
    var k := "process:";
    NoLowerKeyIn(s, 40, "exce", k, 'P');
    assert s[45] == "tion host:"[0];
    Mismatch(Lower(s), 44, k, 1);
    NoLowerKeyIn(s, 45, "tion host:", k, 'P');
    NoLowerKeyIn(s, 55, " ", k, 'P');
    NoLowerKeyIn(s, 56, "zoom.us", k, 'P');
    NoLowerKeyIn(s, 63, ",", k, 'P');
    NoLowerKeyIn(s, 64, " ", k, 'P');
  }

  lemma BypassNoProcessIp(s: string)
    requires IpWords(s)
    ensures forall i :: 65 <= i < 82 ==> !HasAt(Lower(s), i, "process:")
  {
    var k := "process:";
    NoLowerKeyIn(s, 65, "Dest I", k, 'P');
    assert s[72] == ':';
    Mismatch(Lower(s), 71, k, 1);
    NoLowerKeyIn(s, 72, ":", k, 'P');
    NoLowerKeyIn(s, 73, " ", k, 'P');
    NoLowerKeyIn(s, 74, "10.0.0.1", k, 'P');
  }

  /** Without a process part the process pattern finds nothing, */
  lemma BypassProcessMissing(s: string)
    requires BypassWords(s) && |s| == 82
    ensures Search(s, BypassProcess).None?
  {
    BypassNoProcessKey(s);
    SearchMisses(s, BypassProcess);
  }

  /** and with one it first matches at 84, capturing "zoom.exe". */
  lemma BypassProcessFound(s: string)
    requires BypassWords(s) && ProcessWords(s)
    ensures Search(s, BypassProcess) == Some(Hit(84, ["zoom.exe"]))
  {
    BypassNoProcessKey(s);
    NoLowerKeyIn(s, 82, ",", "process:", 'P');
    NoLowerKeyIn(s, 83, " ", "process:", 'P');
    NoMatchBelow(s, BypassProcess, 84);
    BypassProcessAt(s);
    SearchFinds(s, BypassProcess, 84, ["zoom.exe"]);
  }

  lemma BypassProcessAt(s: string)
    requires ProcessWords(s)
    ensures MatchAt(s, BypassProcess, 84) == Some(["zoom.exe"])
  {
    assert KeyAt(s, BypassProcess, 84) by {
      LowerAt(s, 84, "process:");
      assert Lower("process:") == "process:";
    }
    assert Token(s, 92, NonCommaNewline) == Some(["zoom.exe"]) by {
      SpanIs(s, 92, 93, Space);
      RunWord(s, 93, "zoom.exe", NonCommaNewline);
      TokenAfterSpaces(s, 92, "zoom.exe", NonCommaNewline);
    }
    assert Attempt(s, BypassProcess, 92) == Token(s, 92, NonCommaNewline);
  }

  /** The bypass line without a process gives the row of host "zoom.us", address "10.0.0.1" and process "UNKNOWN", */
  lemma BypassRowOf(s: string)
    requires BypassWords(s) && |s| == 82
    ensures BypassOf(s) == Some(Stamped(ToMicros(Sampled), Flow("UNKNOWN", "zoom.us", "10.0.0.1")))
  {
    BypassKind(s);
    BypassHostFound(s);
    BypassIpFound(s);
    BypassProcessMissing(s);
  }

  /** and with the process part, the same row with process "zoom.exe". */
  lemma BypassProcessRowOf(s: string)
    requires BypassWords(s) && ProcessWords(s)
    ensures BypassOf(s) == Some(Stamped(ToMicros(Sampled), Flow("zoom.exe", "zoom.us", "10.0.0.1")))
  {
    assert s[82] == ',';
    BypassKind(s);
    BypassHostFound(s);
    BypassIpFound(s);
    BypassProcessFound(s);
    ZoomStripped();
  }

  lemma ZoomStripped()
    ensures Strip("zoom.exe") == "zoom.exe"
  {
    StripWord("zoom.exe");
  }

  lemma BypassSample()
    ensures BypassOf(BypassLine()) == Some(Stamped(ToMicros(Sampled), Flow("UNKNOWN", "zoom.us", "10.0.0.1")))
  {
    BypassLineWords();
    BypassRowOf(BypassLine());
  }

  lemma BypassProcessSample()
    ensures BypassOf(BypassProcessLine()) == Some(Stamped(ToMicros(Sampled), Flow("zoom.exe", "zoom.us", "10.0.0.1")))
  {
    BypassProcessLineWords();
    BypassProcessRowOf(BypassProcessLine());
  }

  // ---------------------------------------------------------------------------
  // A round-trip time to a point of presence

  /** `2024/01/02 03:04:05.123000 post client rtt pop:sjc1 ip:163.116.128.1 rtt:25` */
  function RttLine(): string {
    SampledText() + RttText()
  }

  function RttText(): string {
    " " + "p" + "ost client rtt" + " " + "pop:" + "sjc1" + " " + "ip:" + "163.116.128.1" + " " + "rtt:" + "25"
  }

  predicate RttWords(s: string) {
    && |s| == 75 && HasAt(s, 0, SampledText()) && HasAt(s, 26, " ") && HasAt(s, 27, "p")
    && HasAt(s, 28, "ost client rtt") && HasAt(s, 42, " ") && HasAt(s, 43, "pop:") && HasAt(s, 47, "sjc1")
    && HasAt(s, 51, " ") && HasAt(s, 52, "ip:") && HasAt(s, 55, "163.116.128.1") && HasAt(s, 68, " ")
    && HasAt(s, 69, "rtt:") && HasAt(s, 73, "25")
  }

  lemma RttTextWords()
    ensures var t := RttText();
      && |t| == 49 && HasAt(t, 0, " ") && HasAt(t, 1, "p") && HasAt(t, 2, "ost client rtt") && HasAt(t, 16, " ")
      && HasAt(t, 17, "pop:") && HasAt(t, 21, "sjc1") && HasAt(t, 25, " ") && HasAt(t, 26, "ip:")
      && HasAt(t, 29, "163.116.128.1") && HasAt(t, 42, " ") && HasAt(t, 43, "rtt:") && HasAt(t, 47, "25")
  {
    RttTextLength();
    RttTextAt0();
    RttTextAt1();
    RttTextAt2();
    RttTextAt16();
    RttTextAt17();
    RttTextAt21();
    RttTextAt25();
    RttTextAt26();
    RttTextAt29();
    RttTextAt42();
    RttTextAt43();
    RttTextAt47();
  }

  lemma RttTextLength() ensures |RttText()| == 49 {}
  lemma RttTextAt0() ensures HasAt(RttText(), 0, " ") {}
  lemma RttTextAt1() ensures HasAt(RttText(), 1, "p") {}
  lemma RttTextAt2() ensures HasAt(RttText(), 2, "ost client rtt") {}
  lemma RttTextAt16() ensures HasAt(RttText(), 16, " ") {}
  lemma RttTextAt17() ensures HasAt(RttText(), 17, "pop:") {}
  lemma RttTextAt21() ensures HasAt(RttText(), 21, "sjc1") {}
  lemma RttTextAt25() ensures HasAt(RttText(), 25, " ") {}
  lemma RttTextAt26() ensures HasAt(RttText(), 26, "ip:") {}
  lemma RttTextAt29() ensures HasAt(RttText(), 29, "163.116.128.1") {}
  lemma RttTextAt42() ensures HasAt(RttText(), 42, " ") {}
  lemma RttTextAt43() ensures HasAt(RttText(), 43, "rtt:") {}
  lemma RttTextAt47() ensures HasAt(RttText(), 47, "25") {}

  lemma RttLineWords()
    ensures RttWords(RttLine())
  {
    assert |SampledText()| == 26 && HasAt(RttLine(), 0, SampledText());
    RttTextWords();
    ShiftedAll(SampledText(), RttText());
  }

  /** The line is stamped and is a round-trip line: it holds "post client rtt" and "pop:". */
  lemma RttKind(s: string)
    requires RttWords(s)
    ensures LineStamp(s) == At(ToMicros(Sampled))
    ensures Contains(Lower(s), "post client rtt") && Contains(Lower(s), "pop:")
  {
    StampedSampled(s);
    RttPhrase(s);
    PopIn(s, 43);
  }

  lemma RttPhrase(s: string)
    requires HasAt(s, 27, "p") && HasAt(s, 28, "ost client rtt")
    ensures Contains(Lower(s), "post client rtt")
  {
    Glue(s, 27, "p", "ost client rtt");
    LowerAt(s, 27, "post client rtt");
    assert Lower("post client rtt") == "post client rtt";
    assert HasAt(Lower(s), 27, "post client rtt");
  }

  lemma PopIn(s: string, i: nat)
    requires HasAt(s, i, "pop:")
    ensures Contains(Lower(s), "pop:")
  {
    LowerAt(s, i, "pop:");
    assert Lower("pop:") == "pop:";
    assert HasAt(Lower(s), i, "pop:");
  }

  /** "pop:" first occurs at 43: the "p" of "post" is followed by "os", */
  lemma RttFirst(s: string)
    requires RttWords(s)
    ensures forall i: nat :: i < 43 ==> MatchAt(s, RttFields, i).None?
  {
    NoKeyIn(s, 0, SampledText(), "pop:");
    NoKeyIn(s, 26, " ", "pop:");
    assert s[29] == "ost client rtt"[1];
    Mismatch(s, 27, "pop:", 2);
    NoKeyIn(s, 28, "ost client rtt", "pop:");
    NoKeyIn(s, 42, " ", "pop:");
    NoMatchBelow(s, RttFields, 43);
  }

  /** and after it come the point of presence "sjc1", its address "163.116.128.1" and 25 milliseconds. */
  lemma RttLaidOut(s: string)
    requires RttWords(s)
    ensures RttLaid(s, 47, 52, 69, ["sjc1", "163.116.128.1", "25"])
  {
    RunWord(s, 47, "sjc1", NonSpace);
    SpanIs(s, 51, 52, Space);
    RunWord(s, 55, "163.116.128.1", NonSpace);
    SpanIs(s, 68, 69, Space);
    RunWord(s, 73, "25", Digit);
  }

  lemma RttFound(s: string)
    requires RttWords(s)
    ensures Search(s, RttFields) == Some(Hit(43, ["sjc1", "163.116.128.1", "25"]))
  {
    var g := ["sjc1", "163.116.128.1", "25"];
    assert RttAt(s, 47) == Some(g) by {
      RttLaidOut(s);
      RttIs(s, 47, 52, 69, g);
    }
    assert KeyAt(s, RttFields, 43);
    assert Attempt(s, RttFields, 47) == RttAt(s, 47);
    RttFirst(s);
    SearchFinds(s, RttFields, 43, g);
  }

  lemma RttRowOf(s: string)
    requires RttWords(s)
    ensures RttOf(s) == Some(Stamped(ToMicros(Sampled), Rtt("sjc1", "163.116.128.1", 25)))
  {
    RttKind(s);
    RttFound(s);
    assert NatOf("25") == 25;
  }

  lemma RttSample()
    ensures RttOf(RttLine()) == Some(Stamped(ToMicros(Sampled), Rtt("sjc1", "163.116.128.1", 25)))
  {
    RttLineWords();
    RttRowOf(RttLine());
  }

  // ---------------------------------------------------------------------------
  // A gateway connection

  /** `2024/01/02 03:04:05.123000 Connecting to gateway-sjc1.goskope.com:443` */
  function GatewayLine(): string {
    SampledText() + GatewayText()
  }

  function GatewayText(): string {
    " " + "Connecting to " + "gateway-" + "sjc1.goskope.com" + ":" + "443"
  }

  predicate GatewayWords(s: string) {
    && |s| == 69 && HasAt(s, 0, SampledText()) && HasAt(s, 26, " ") && HasAt(s, 27, "Connecting to ")
    && HasAt(s, 41, "gateway-") && HasAt(s, 49, "sjc1.goskope.com") && HasAt(s, 65, ":") && HasAt(s, 66, "443")
  }

  lemma GatewayLineWords()
    ensures GatewayWords(GatewayLine())
  {
    var p, t := SampledText(), GatewayText();
    GatewayTextWords();
    Leading(p, t);
    Shifted(p, t, 0, " ");
    Shifted(p, t, 1, "Connecting to ");
    Shifted(p, t, 15, "gateway-");
    Shifted(p, t, 23, "sjc1.goskope.com");
    Shifted(p, t, 39, ":");
    Shifted(p, t, 40, "443");
  }

  lemma GatewayTextWords()
    ensures var t := GatewayText();
      && |t| == 43 && HasAt(t, 0, " ") && HasAt(t, 1, "Connecting to ") && HasAt(t, 15, "gateway-")
      && HasAt(t, 23, "sjc1.goskope.com") && HasAt(t, 39, ":") && HasAt(t, 40, "443")
  {
    GatewayTextLength();
    GatewayTextAt0();
    GatewayTextAt1();
    GatewayTextAt15();
    GatewayTextAt23();
    GatewayTextAt39();
    GatewayTextAt40();
  }

  lemma GatewayTextLength() ensures |GatewayText()| == 43 {}
  lemma GatewayTextAt0() ensures HasAt(GatewayText(), 0, " ") {}
  lemma GatewayTextAt1() ensures HasAt(GatewayText(), 1, "Connecting to ") {}
  lemma GatewayTextAt15() ensures HasAt(GatewayText(), 15, "gateway-") {}
  lemma GatewayTextAt23() ensures HasAt(GatewayText(), 23, "sjc1.goskope.com") {}
  lemma GatewayTextAt39() ensures HasAt(GatewayText(), 39, ":") {}
  lemma GatewayTextAt40() ensures HasAt(GatewayText(), 40, "443") {}

  /** The line holds "connecting to gateway-" in any case, */
  lemma GatewayPhrase(s: string)
    requires HasAt(s, 27, "Connecting to ") && HasAt(s, 41, "gateway-")
    ensures Contains(Lower(s), "connecting to gateway-") && KeyAt(s, Gateway, 27)
  {
    GatewayPhraseLower();
    LowerGlue(s, 27, "Connecting to ", "gateway-", "connecting to ", "gateway-");
    assert "connecting to " + "gateway-" == "connecting to gateway-";
    assert HasAt(Lower(s), 27, "connecting to gateway-");
  }

  lemma GatewayPhraseLower()
    ensures Lower("Connecting to ") == "connecting to " && Lower("gateway-") == "gateway-"
  {
  }

  /** the gateway pattern matches first there, */
  lemma GatewayFirst(s: string)
    requires HasAt(s, 0, SampledText()) && HasAt(s, 26, " ")
    ensures forall i: nat :: i < 27 ==> MatchAt(s, Gateway, i).None?
  {
    assert 'c' !in SampledText() && 'C' !in SampledText();
    NoLowerKeyIn(s, 0, SampledText(), "connecting to ", 'C');
    NoLowerKeyIn(s, 26, " ", "connecting to ", 'C');
    NoMatchBelow(s, Gateway, 27);
  }

  /** and captures the gateway name up to the port: "gateway-sjc1.goskope.com". */
  lemma GatewayName(s: string)
    requires GatewayWords(s)
    ensures GatewayAt(s, 41) == Some(["gateway-sjc1.goskope.com"])
  {
    GatewayNameText();
    RunWord(s, 49, "sjc1.goskope.com", NonColon);
    GatewayJoined(s, 41, "gateway-", "sjc1.goskope.com");
  }

  lemma GatewayNameText()
    ensures "gateway-sjc1.goskope.com" == "gateway-" + "sjc1.goskope.com" && Lower("gateway-") == "gateway-"
  {
  }

  /** A name written as a "gateway-" prefix `a` and a colon-free run `b` is the gateway name. */
  lemma GatewayJoined(s: string, p: nat, a: string, b: string)
    requires |a| == 8 && Lower(a) == "gateway-" && HasAt(s, p, a) && RunAt(s, p + 8, b, NonColon)
    ensures p <= |s| && GatewayAt(s, p) == Some([a + b])
  {
    var t := a + b;
    Glue(s, p, a, b);
    assert t[..8] == a && t[8..] == b;
    GatewayIs(s, p, t);
  }

  lemma GatewayMatch(s: string)
    requires GatewayWords(s)
    ensures MatchAt(s, Gateway, 27) == Some(["gateway-sjc1.goskope.com"])
  {
    GatewayPhrase(s);
    GatewayName(s);
    assert Attempt(s, Gateway, 41) == GatewayAt(s, 41);
  }

  lemma GatewayInOf(s: string)
    requires GatewayWords(s)
    ensures LineStamp(s) == At(ToMicros(Sampled)) && GatewayIn(s) == Some("gateway-sjc1.goskope.com")
  {
    StampedSampled(s);
    GatewayPhrase(s);
    GatewayFirst(s);
    GatewayMatch(s);
    SearchFinds(s, Gateway, 27, ["gateway-sjc1.goskope.com"]);
  }

  lemma GatewaySample()
    ensures GatewayOf(GatewayLine()) == Some("gateway-sjc1.goskope.com")
  {
    GatewayLineWords();
    GatewayInOf(GatewayLine());
  }

  // ---------------------------------------------------------------------------
  // A stamp out of calendar range

  /** `2024/02/30 03:04:05 Connecting to gateway-sjc1.goskope.com:443`: February 2024 has 29 days. */
  function BadDateLine(): string {
    BadDateText() + GatewayText()
  }

  function BadDateText(): string {
    "2024" + "/" + "02" + "/" + "30" + " " + "03" + ":" + "04" + ":" + "05"
  }

  const BadDate := Prefix(2024, 2, 30, 3, 4, 5, [])

  lemma BadDatePads()
    ensures Pad(2024, 4) == "2024" && Pad(2, 2) == "02" && Pad(30, 2) == "30"
    ensures Pad(3, 2) == "03" && Pad(4, 2) == "04" && Pad(5, 2) == "05"
  {
    assert Pad(2024, 4) == "2024";
  }

  /** The written fields from the texts of the six fields. */
  lemma FieldsTextOf(p: Prefix, y: string, mo: string, d: string, h: string, mi: string, se: string)
    requires Pad(p.year, 4) == y && Pad(p.month, 2) == mo && Pad(p.day, 2) == d
    requires Pad(p.hour, 2) == h && Pad(p.minute, 2) == mi && Pad(p.second, 2) == se
    ensures FieldsText(p) == y + "/" + mo + "/" + d + " " + h + ":" + mi + ":" + se
  {
  }

  lemma BadDateWritten()
    ensures PrefixText(BadDate) == BadDateText()
  {
    BadDatePads();
    FieldsTextOf(BadDate, "2024", "02", "30", "03", "04", "05");
    assert PrefixText(BadDate) == FieldsText(BadDate) + [];
  }

  /** The fields fit the pattern's digits, but there is no 30 February. */
  lemma BadDateFields()
    ensures FitsPattern(BadDate) && !FieldsValid(BadDate)
  {
    assert DaysInMonth(2024, 2) == 29;
  }

  lemma BadDateStamp()
    ensures LineStamp(BadDateLine()) == Unparsable
  {
    BadDateWritten();
    BadDateFields();
    GatewayTextAt0();
    InvalidFieldsDropped(BadDate, GatewayText());
  }

  /** The line is matched by the timestamp pattern but cannot be read, so it is dropped: whatever came before, the results, the last gateway among them, stay as they were. */
  lemma BadDateSample(lines: seq<string>)
    ensures LineStamp(BadDateLine()) == Unparsable && GatewayOf(BadDateLine()) == None
    ensures ParseLog(lines + [BadDateLine()]) == ParseLog(lines)
  {
    BadDateStamp();
    DroppedLineChangesNothing(lines, BadDateLine());
  }

  // ---------------------------------------------------------------------------
  // The tenant

  /** `2024/01/02 03:04:05.123000 config host:addon.goskope.com url:https://addon-acme.goskope.com/x` */
  function TenantLine(): string {
    SampledText() + TenantHost() + TenantUrl()
  }

  function TenantHost(): string {
    " " + "config host:" + "addon.goskope.com" + " "
  }

  function TenantUrl(): string {
    "url:" + "https://addon-" + "acme" + "." + "goskope.com/x"
  }

  /** Where the words of the tenant line sit: the instant, the configuration host, */
  predicate TenantWords(s: string) {
    |s| == 93 && HasAt(s, 0, SampledText()) && TenantHostWords(s) && TenantUrlWords(s)
  }

  predicate TenantHostWords(s: string) {
    && HasAt(s, 26, TenantHost()) && HasAt(s, 26, " ") && HasAt(s, 27, "config host:")
    && HasAt(s, 39, "addon.goskope.com") && HasAt(s, 56, " ")
  }

  /** and the address of the tenant. */
  predicate TenantUrlWords(s: string) {
    && HasAt(s, 57, TenantUrl()) && HasAt(s, 57, "url:") && HasAt(s, 61, "https://addon-")
    && HasAt(s, 75, "acme") && HasAt(s, 79, ".") && HasAt(s, 80, "goskope.com/x")
  }

  lemma TenantHostOf(s: string)
    requires HasAt(s, 26, TenantHost())
    ensures TenantHostWords(s)
  {
    var t := TenantHost();
    TenantHostLength();
    TenantHostAt0();
    TenantHostAt1();
    TenantHostAt13();
    TenantHostAt30();
    WithinAll(s, 26, t);
  }

  lemma TenantHostLength() ensures |TenantHost()| == 31 {}
  lemma TenantHostAt0() ensures HasAt(TenantHost(), 0, " ") {}
  lemma TenantHostAt1() ensures HasAt(TenantHost(), 1, "config host:") {}
  lemma TenantHostAt13() ensures HasAt(TenantHost(), 13, "addon.goskope.com") {}
  lemma TenantHostAt30() ensures HasAt(TenantHost(), 30, " ") {}

  lemma TenantUrlOf(s: string)
    requires HasAt(s, 57, TenantUrl())
    ensures TenantUrlWords(s)
  {
    var t := TenantUrl();
    TenantUrlLength();
    TenantUrlAt0();
    TenantUrlAt4();
    TenantUrlAt18();
    TenantUrlAt22();
    TenantUrlAt23();
    WithinAll(s, 57, t);
  }

  lemma TenantUrlLength() ensures |TenantUrl()| == 36 {}
  lemma TenantUrlAt0() ensures HasAt(TenantUrl(), 0, "url:") {}
  lemma TenantUrlAt4() ensures HasAt(TenantUrl(), 4, "https://addon-") {}
  lemma TenantUrlAt18() ensures HasAt(TenantUrl(), 18, "acme") {}
  lemma TenantUrlAt22() ensures HasAt(TenantUrl(), 22, ".") {}
  lemma TenantUrlAt23() ensures HasAt(TenantUrl(), 23, "goskope.com/x") {}

  lemma TenantLineWords()
    ensures TenantWords(TenantLine())
  {
    var s := TenantLine();
    assert |s| == 93 && HasAt(s, 0, SampledText()) && HasAt(s, 26, TenantHost()) && HasAt(s, 57, TenantUrl()) by {
      assert |SampledText()| == 26 && |TenantHost()| == 31 && |TenantUrl()| == 36;
      ThreeParts(SampledText(), TenantHost(), TenantUrl());
    }
    TenantHostOf(s);
    TenantUrlOf(s);
  }

  /** The line holds "config host:addon.goskope.com url:" in any case, */
  lemma TenantPhrase(s: string)
    requires TenantHostWords(s) && HasAt(s, 57, "url:")
    ensures Contains(Lower(s), "config host:addon.goskope.com url:")
  {
    LowerAt(s, 27, "config host:");
    LowerAt(s, 39, "addon.goskope.com");
    LowerAt(s, 56, " ");
    LowerAt(s, 57, "url:");
    assert Lower("config host:") == "config host:";
    assert Lower("addon.goskope.com") == "addon.goskope.com";
    assert Lower(" ") == " " && Lower("url:") == "url:";
    TenantPhraseGlued(Lower(s));
  }

  lemma TenantPhraseGlued(l: string)
    requires HasAt(l, 27, "config host:") && HasAt(l, 39, "addon.goskope.com") && HasAt(l, 56, " ") && HasAt(l, 57, "url:")
    ensures Contains(l, "config host:addon.goskope.com url:")
  {
    Glue4(l, 27, "config host:", "addon.goskope.com", " ", "url:");
    TenantPhraseText();
  }

  lemma TenantPhraseText()
    ensures "config host:" + "addon.goskope.com" + " " + "url:" == "config host:addon.goskope.com url:"
  {
  }

  /** Four words side by side make their concatenation, and the text then contains it. */
  lemma Glue4(s: string, a: nat, w: string, x: string, y: string, z: string)
    requires HasAt(s, a, w) && HasAt(s, a + |w|, x) && HasAt(s, a + |w| + |x|, y) && HasAt(s, a + |w| + |x| + |y|, z)
    ensures HasAt(s, a, w + x + y + z) && Contains(s, w + x + y + z)
  {
    Glue(s, a, w, x);
    Glue(s, a, w + x, y);
    Glue(s, a, w + x + y, z);
  }

  /** the tenant pattern matches first at "url:", */
  lemma TenantFirst(s: string)
    requires HasAt(s, 0, SampledText()) && TenantHostWords(s)
    ensures forall i: nat :: i < 57 ==> MatchAt(s, Tenant, i).None?
  {
    var k := "url:https://addon-";
    assert 'u' !in SampledText();
    NoKeyIn(s, 0, SampledText(), k);
    NoKeyIn(s, 26, " ", k);
    NoKeyIn(s, 27, "config host:", k);
    NoKeyIn(s, 39, "addon.goskope.com", k);
    NoKeyIn(s, 56, " ", k);
    NoMatchBelow(s, Tenant, 57);
  }

  /** and captures everything after "addon-": "acme.goskope.com/x". */
  lemma TenantCapture(s: string)
    requires |s| == 93 && TenantUrlWords(s)
    ensures MatchAt(s, Tenant, 57) == Some(["acme.goskope.com/x"])
  {
    assert KeyAt(s, Tenant, 57) by {
      Glue(s, 57, "url:", "https://addon-");
      assert "url:" + "https://addon-" == "url:https://addon-";
    }
    assert Attempt(s, Tenant, 75) == Some(["acme.goskope.com/x"]) by {
      TenantSlug(s);
    }
    MatchOf(s, Tenant, 57, ["acme.goskope.com/x"]);
  }

  lemma TenantSlug(s: string)
    requires |s| == 93 && TenantUrlWords(s)
    ensures TenantAt(s, 75) == Some(["acme.goskope.com/x"])
  {
    RunWord(s, 75, "acme", NonDot);
    RunWord(s, 80, "goskope.com/x", NonNewline);
    TenantSlugText();
    TenantJoined(s, 75, "acme", "goskope.com/x");
  }

  lemma TenantSlugText()
    ensures "acme.goskope.com/x" == "acme" + "." + "goskope.com/x"
  {
  }

  /** A dot-free run, a dot and the rest of the line make the tenant capture. */
  lemma TenantJoined(s: string, p: nat, a: string, b: string)
    requires RunAt(s, p, a, NonDot) && HasAt(s, p + |a|, ".") && RunAt(s, p + |a| + 1, b, NonNewline)
    ensures p <= |s| && TenantAt(s, p) == Some([a + "." + b])
  {
    Glue(s, p, a, ".");
    Glue(s, p, a + ".", b);
    assert s[p + |a|] == "."[0];
    TenantIs(s, p, p + |a|, a + "." + b);
  }

  lemma TenantInOf(s: string)
    requires TenantWords(s)
    ensures LineStamp(s) == At(ToMicros(Sampled)) && TenantIn(s) == Some("acme.goskope.com/x")
  {
    StampedSampled(s);
    TenantPhrase(s);
    TenantFirst(s);
    TenantCapture(s);
    SearchFinds(s, Tenant, 57, ["acme.goskope.com/x"]);
    TenantStripped();
  }

  lemma TenantStripped()
    ensures Strip("acme.goskope.com/x") == "acme.goskope.com/x"
  {
    StripWord("acme.goskope.com/x");
  }

  lemma TenantSample()
    ensures TenantOf(TenantLine()) == Some("acme.goskope.com/x")
  {
    TenantLineWords();
    TenantInOf(TenantLine());
  }

  // ---------------------------------------------------------------------------
  // The user agent

  /** `2024/01/02 03:04:05.123000 config setting STA user agent: Windows 10;121.0.0.2021;LAPTOP-01` */
  function AgentLine(): string {
    SampledText() + AgentKeyText() + AgentFieldText()
  }

  function AgentKeyText(): string {
    " " + "config setting " + "STA user agent" + ":" + " "
  }

  function AgentFieldText(): string {
    "Windows 10" + ";" + "121.0.0.2021" + ";" + "LAPTOP-01"
  }

  /** Where the words of the user-agent line sit: the instant, the setting's name, */
  predicate AgentWords(s: string) {
    |s| == 91 && HasAt(s, 0, SampledText()) && AgentKeyWords(s) && AgentFieldWords(s)
  }

  predicate AgentKeyWords(s: string) {
    && HasAt(s, 26, AgentKeyText()) && HasAt(s, 26, " ") && HasAt(s, 27, "config setting ")
    && HasAt(s, 42, "STA user agent") && HasAt(s, 56, ":") && HasAt(s, 57, " ")
  }

  /** and its three fields. */
  predicate AgentFieldWords(s: string) {
    && HasAt(s, 58, AgentFieldText()) && HasAt(s, 58, "Windows 10") && HasAt(s, 68, ";")
    && HasAt(s, 69, "121.0.0.2021") && HasAt(s, 81, ";") && HasAt(s, 82, "LAPTOP-01")
  }

  lemma AgentKeyOf(s: string)
    requires HasAt(s, 26, AgentKeyText())
    ensures AgentKeyWords(s)
  {
    var t := AgentKeyText();
    AgentKeyTextLength();
    AgentKeyTextAt0();
    AgentKeyTextAt1();
    AgentKeyTextAt16();
    AgentKeyTextAt30();
    AgentKeyTextAt31();
    WithinAll(s, 26, t);
  }

  lemma AgentKeyTextLength() ensures |AgentKeyText()| == 32 {}
  lemma AgentKeyTextAt0() ensures HasAt(AgentKeyText(), 0, " ") {}
  lemma AgentKeyTextAt1() ensures HasAt(AgentKeyText(), 1, "config setting ") {}
  lemma AgentKeyTextAt16() ensures HasAt(AgentKeyText(), 16, "STA user agent") {}
  lemma AgentKeyTextAt30() ensures HasAt(AgentKeyText(), 30, ":") {}
  lemma AgentKeyTextAt31() ensures HasAt(AgentKeyText(), 31, " ") {}

  lemma AgentFieldOf(s: string)
    requires HasAt(s, 58, AgentFieldText())
    ensures AgentFieldWords(s)
  {
    var t := AgentFieldText();
    AgentFieldTextLength();
    AgentFieldTextAt0();
    AgentFieldTextAt10();
    AgentFieldTextAt11();
    AgentFieldTextAt23();
    AgentFieldTextAt24();
    WithinAll(s, 58, t);
  }

  lemma AgentFieldTextLength() ensures |AgentFieldText()| == 33 {}
  lemma AgentFieldTextAt0() ensures HasAt(AgentFieldText(), 0, "Windows 10") {}
  lemma AgentFieldTextAt10() ensures HasAt(AgentFieldText(), 10, ";") {}
  lemma AgentFieldTextAt11() ensures HasAt(AgentFieldText(), 11, "121.0.0.2021") {}
  lemma AgentFieldTextAt23() ensures HasAt(AgentFieldText(), 23, ";") {}
  lemma AgentFieldTextAt24() ensures HasAt(AgentFieldText(), 24, "LAPTOP-01") {}

  lemma AgentLineWords()
    ensures AgentWords(AgentLine())
  {
    var s := AgentLine();
    assert |s| == 91 && HasAt(s, 0, SampledText()) && HasAt(s, 26, AgentKeyText()) && HasAt(s, 58, AgentFieldText()) by {
      assert |SampledText()| == 26 && |AgentKeyText()| == 32 && |AgentFieldText()| == 33;
      ThreeParts(SampledText(), AgentKeyText(), AgentFieldText());
    }
    AgentKeyOf(s);
    AgentFieldOf(s);
  }

  /** The line holds "config setting sta user agent" in any case, */
  lemma AgentPhrase(s: string)
    requires HasAt(s, 27, "config setting ") && HasAt(s, 42, "STA user agent")
    ensures Contains(Lower(s), "config setting sta user agent")
  {
    AgentPhraseLower();
    LowerGlue(s, 27, "config setting ", "STA user agent", "config setting ", "sta user agent");
    assert "config setting " + "sta user agent" == "config setting sta user agent";
    assert HasAt(Lower(s), 27, "config setting sta user agent");
  }

  lemma AgentPhraseLower()
    ensures Lower("config setting ") == "config setting " && Lower("STA user agent") == "sta user agent"
  {
  }

  /** the user-agent pattern matches first at "STA user agent:", */
  lemma AgentFirst(s: string)
    requires HasAt(s, 0, SampledText()) && HasAt(s, 26, " ") && HasAt(s, 27, "config setting ")
    ensures forall i: nat :: i < 42 ==> MatchAt(s, UserAgent, i).None?
  {
    var k := "STA user agent:";
    assert 'S' !in SampledText();
    NoKeyIn(s, 0, SampledText(), k);
    NoKeyIn(s, 26, " ", k);
    NoKeyIn(s, 27, "config setting ", k);
    NoMatchBelow(s, UserAgent, 42);
  }

  /** and captures the three ';'-separated fields to the end of the line. */
  lemma AgentFields(s: string)
    requires |s| == 91 && AgentFieldWords(s)
    ensures AgentLayout(s, 58, ["Windows 10", "121.0.0.2021", "LAPTOP-01"])
  {
    AbsentAt(s, 58, "Windows 10", '\n');
    AbsentAt(s, 68, ";", '\n');
    AbsentAt(s, 69, "121.0.0.2021", '\n');
    AbsentAt(s, 81, ";", '\n');
    AbsentAt(s, 82, "LAPTOP-01", '\n');
    SpanIs(s, 58, 91, NonNewline);
  }

  lemma AgentCapture(s: string)
    requires |s| == 91 && AgentKeyWords(s) && AgentFieldWords(s)
    ensures MatchAt(s, UserAgent, 42) == Some(["Windows 10", "121.0.0.2021", "LAPTOP-01"])
  {
    assert KeyAt(s, UserAgent, 42) by {
      Glue(s, 42, "STA user agent", ":");
      assert "STA user agent" + ":" == "STA user agent:";
    }
    assert Attempt(s, UserAgent, 57) == Some(["Windows 10", "121.0.0.2021", "LAPTOP-01"]) by {
      AgentFieldAt(s);
    }
    MatchOf(s, UserAgent, 42, ["Windows 10", "121.0.0.2021", "LAPTOP-01"]);
  }

  lemma AgentFieldAt(s: string)
    requires |s| == 91 && AgentKeyWords(s) && AgentFieldWords(s)
    ensures AgentField(s, 57) == Some(["Windows 10", "121.0.0.2021", "LAPTOP-01"])
  {
    SpanIs(s, 57, 58, Space);
    AgentFields(s);
    AgentAfterSpaces(s, 57, ["Windows 10", "121.0.0.2021", "LAPTOP-01"]);
  }

  lemma AgentInOf(s: string)
    requires AgentWords(s)
    ensures LineStamp(s) == At(ToMicros(Sampled))
    ensures AgentIn(s) == Some(Agent("Windows 10", "121.0.0.2021", "LAPTOP-01"))
  {
    StampedSampled(s);
    AgentPhrase(s);
    AgentFirst(s);
    AgentCapture(s);
    SearchFinds(s, UserAgent, 42, ["Windows 10", "121.0.0.2021", "LAPTOP-01"]);
    AgentStripped();
  }

  lemma AgentStripped()
    ensures Strip("Windows 10") == "Windows 10" && Strip("121.0.0.2021") == "121.0.0.2021"
    ensures Strip("LAPTOP-01") == "LAPTOP-01"
  {
    StripWord("Windows 10");
    StripWord("121.0.0.2021");
    StripWord("LAPTOP-01");
  }

  lemma AgentSample()
    ensures AgentOf(AgentLine()) == Some(Agent("Windows 10", "121.0.0.2021", "LAPTOP-01"))
  {
    AgentLineWords();
    AgentInOf(AgentLine());
  }
}
