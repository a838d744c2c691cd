/**
  The nsdebuglog line classifier. One pass over the lines reads each line's optional
  timestamp, drops a line whose timestamp-shaped start cannot be read, and otherwise
  runs a series of independent tests on it (tunnel and bypass being the one
  either-or pair) that append rows, remember the last gateway and overwrite the
  tenant and user-agent fields of the host information.

  `ParseLog` states the result per category (the rows each line contributes, in line
  order, or the last line that sets a field); `ParseLogLines` is the single loop.
 */
module LogParser {

  import opened Wrappers
  import opened Text
  import opened Scan
  import opened Timestamp
  import opened LogRecords

  const Unknown: string := "UNKNOWN"

  /** The four header fields; all start empty. */
  datatype HostInfo = HostInfo(hostname: string, osVersion: string, clientVersion: string, tenant: string)

  /** The three fields of a user-agent line, stripped. */
  datatype Agent = Agent(osVersion: string, clientVersion: string, hostname: string)

  /** Everything one parse returns, in the order of the returned tuple. */
  datatype Parsed = Parsed(
    tunnels: seq<Stamped<Flow>>,
    bypasses: seq<Stamped<Flow>>,
    pops: seq<Stamped<string>>,
    rtts: seq<Stamped<Rtt>>,
    errors: seq<Stamped<string>>,
    lastGateway: Option<string>,
    steering: seq<string>,
    info: HostInfo)

  // ---------------------------------------------------------------------------
  // What one line contributes to each result

  predicate IsTunnelLine(line: string) {
    Contains(Lower(line), "tunneling flow")
  }

  /** The tunnel row of a line read with timestamp `stamp`. */
  function TunnelRow(line: string, stamp: Stamp): Option<Stamped<Flow>> {
    var process := Search(line, TunnelProcess);
    var host := Search(line, TunnelHost);
    var addr := Search(line, TunnelAddr);
    if stamp.At? && IsTunnelLine(line) && process.Some? && host.Some? && addr.Some? then
      Some(Stamped(stamp.micros, Flow(Strip(process.value.groups[0]), host.value.groups[0], addr.value.groups[0])))
    else None
  }

  /** The bypass row of a line read with timestamp `stamp`; a missing process reads "UNKNOWN". */
  function BypassRow(line: string, stamp: Stamp): Option<Stamped<Flow>> {
    var host := Search(line, BypassHost);
    var process := Search(line, BypassProcess);
    var ip := Search(line, BypassDestIp);
    if stamp.At? && !IsTunnelLine(line) && Contains(Lower(line), "bypassappmgr") && host.Some? && ip.Some? then
      var name := if process.Some? then Strip(process.value.groups[0]) else Unknown;
      Some(Stamped(stamp.micros, Flow(name, host.value.groups[0], ip.value.groups[0])))
    else None
  }

  function PopRow(line: string, stamp: Stamp): Option<Stamped<string>> {
    if stamp.At? && Contains(Lower(line), "tunnel established to gateway") && Contains(Lower(line), "pop:")
    then Some(Stamped(stamp.micros, Strip(line)))
    else None
  }

  function RttRow(line: string, stamp: Stamp): Option<Stamped<Rtt>> {
    var m := Search(line, RttFields);
    if stamp.At? && Contains(Lower(line), "post client rtt") && Contains(Lower(line), "pop:") && m.Some? then
      Some(Stamped(stamp.micros, Rtt(m.value.groups[0], m.value.groups[1], NatOf(m.value.groups[2]))))
    else None
  }

  predicate IsErrorLine(line: string) {
    Contains(Lower(line), " error ") || Contains(Lower(line), " warn ")
  }

  function ErrorRow(line: string, stamp: Stamp): Option<Stamped<string>> {
    if stamp.At? && IsErrorLine(line) then Some(Stamped(stamp.micros, Strip(line))) else None
  }

  /** The gateway a kept line names. */
  function GatewayIn(line: string): Option<string> {
    var m := Search(line, Gateway);
    if Contains(Lower(line), "connecting to gateway-") && m.Some? then Some(m.value.groups[0]) else None
  }

  function SteeringIn(line: string): Option<string> {
    if Contains(Lower(line), "dynamic steering enhancement") then Some(Strip(line)) else None
  }

  function TenantIn(line: string): Option<string> {
    var m := Search(line, Tenant);
    if Contains(Lower(line), "config host:addon.goskope.com url:") && m.Some? then Some(Strip(m.value.groups[0])) else None
  }

  function AgentIn(line: string): Option<Agent> {
    var m := Search(line, UserAgent);
    if Contains(Lower(line), "config setting sta user agent") && m.Some? then
      Some(Agent(Strip(m.value.groups[0]), Strip(m.value.groups[1]), Strip(m.value.groups[2])))
    else None
  }

  // What each line contributes, its timestamp read and dropped lines contributing nothing

  function TunnelOf(line: string): Option<Stamped<Flow>> { TunnelRow(line, LineStamp(line)) }
  function BypassOf(line: string): Option<Stamped<Flow>> { BypassRow(line, LineStamp(line)) }
  function PopOf(line: string): Option<Stamped<string>> { PopRow(line, LineStamp(line)) }
  function RttOf(line: string): Option<Stamped<Rtt>> { RttRow(line, LineStamp(line)) }
  function ErrorOf(line: string): Option<Stamped<string>> { ErrorRow(line, LineStamp(line)) }

  function GatewayOf(line: string): Option<string> {
    if LineStamp(line).Unparsable? then None else GatewayIn(line)
  }

  function SteeringOf(line: string): Option<string> {
    if LineStamp(line).Unparsable? then None else SteeringIn(line)
  }

  function TenantOf(line: string): Option<string> {
    if LineStamp(line).Unparsable? then None else TenantIn(line)
  }

  function AgentOf(line: string): Option<Agent> {
    if LineStamp(line).Unparsable? then None else AgentIn(line)
  }

  // ---------------------------------------------------------------------------
  // Whole-log results

  /** The rows `f` gives the lines, in line order. */
  function Gather<T>(lines: seq<string>, f: string -> Option<T>): (r: seq<T>)
    ensures |r| <= |lines|
  {
    if lines == [] then [] else Gather(lines[..|lines| - 1], f) + ToSeq(f(lines[|lines| - 1]))
  }

  /** The value `f` gives the last line it gives one for. */
  function LastMatch<T>(lines: seq<string>, f: string -> Option<T>): Option<T> {
    if lines == [] then None
    else
      match f(lines[|lines| - 1])
      case Some(x) => Some(x)
      case None => LastMatch(lines[..|lines| - 1], f)
  }

  function InfoOf(lines: seq<string>): HostInfo {
    var agent := LastMatch(lines, AgentOf);
    HostInfo(
      if agent.Some? then agent.value.hostname else "",
      if agent.Some? then agent.value.osVersion else "",
      if agent.Some? then agent.value.clientVersion else "",
      LastMatch(lines, TenantOf).GetOr(""))
  }

  /** The result of a parse, category by category. */
  function ParseLog(lines: seq<string>): Parsed {
    Parsed(
      Gather(lines, TunnelOf),
      Gather(lines, BypassOf),
      Gather(lines, PopOf),
      Gather(lines, RttOf),
      Gather(lines, ErrorOf),
      LastMatch(lines, GatewayOf),
      Gather(lines, SteeringOf),
      InfoOf(lines))
  }

  // ---------------------------------------------------------------------------
  // The single pass

  /** A kept line: tunnel row, or else bypass row. */
  method FlowRule(line: string, stamp: Stamp, tunnels: seq<Stamped<Flow>>, bypasses: seq<Stamped<Flow>>)
    returns (tunnels': seq<Stamped<Flow>>, bypasses': seq<Stamped<Flow>>)
    requires !stamp.Unparsable?
    ensures tunnels' == tunnels + ToSeq(TunnelRow(line, stamp))
    ensures bypasses' == bypasses + ToSeq(BypassRow(line, stamp))
  {
    tunnels', bypasses' := tunnels, bypasses;
    var lower := Lower(line);
    if Contains(lower, "tunneling flow") {
      tunnels' := TunnelRule(line, stamp, tunnels);
    } else if Contains(lower, "bypassappmgr") {
      bypasses' := BypassRule(line, stamp, bypasses);
    }
  }

  /** A kept tunnelling line: its row, when the process, host and address are all found. */
  method TunnelRule(line: string, stamp: Stamp, tunnels: seq<Stamped<Flow>>) returns (tunnels': seq<Stamped<Flow>>)
    requires !stamp.Unparsable? && IsTunnelLine(line)
    ensures tunnels' == tunnels + ToSeq(TunnelRow(line, stamp))
  {
    tunnels' := tunnels;
    var process := Search(line, TunnelProcess);
    var host := Search(line, TunnelHost);
    var addr := Search(line, TunnelAddr);
    if stamp.At? && process.Some? && host.Some? && addr.Some? {
      tunnels' := tunnels + [Stamped(stamp.micros,
        Flow(Strip(process.value.groups[0]), host.value.groups[0], addr.value.groups[0]))];
    } else {
      assert TunnelRow(line, stamp) == None;
    }
  }

  /** A kept bypass-manager line: its row, when the host and destination IP are found. */
  method BypassRule(line: string, stamp: Stamp, bypasses: seq<Stamped<Flow>>) returns (bypasses': seq<Stamped<Flow>>)
    requires !stamp.Unparsable? && !IsTunnelLine(line) && Contains(Lower(line), "bypassappmgr")
    ensures bypasses' == bypasses + ToSeq(BypassRow(line, stamp))
  {
    bypasses' := bypasses;
    var host := Search(line, BypassHost);
    var process := Search(line, BypassProcess);
    var ip := Search(line, BypassDestIp);
    if stamp.At? && host.Some? && ip.Some? {
      var name := if process.Some? then Strip(process.value.groups[0]) else Unknown;
      bypasses' := bypasses + [Stamped(stamp.micros, Flow(name, host.value.groups[0], ip.value.groups[0]))];
    } else {
      assert BypassRow(line, stamp) == None;
    }
  }

  /** A kept line: RTT row. */
  method RttRule(line: string, stamp: Stamp, rtts: seq<Stamped<Rtt>>) returns (rtts': seq<Stamped<Rtt>>)
    requires !stamp.Unparsable?
    ensures rtts' == rtts + ToSeq(RttRow(line, stamp))
  {
    rtts' := rtts;
    var lower := Lower(line);
    if Contains(lower, "post client rtt") && Contains(lower, "pop:") {
      var m := Search(line, RttFields);
      if stamp.At? && m.Some? {
        rtts' := rtts + [Stamped(stamp.micros, Rtt(m.value.groups[0], m.value.groups[1], NatOf(m.value.groups[2])))];
      } else {
        assert RttRow(line, stamp) == None;
      }
    } else {
      assert RttRow(line, stamp) == None;
    }
  }

  /** A kept line: the last gateway connected to. */
  method GatewayRule(line: string, lastGateway: Option<string>) returns (lastGateway': Option<string>)
    ensures lastGateway' == if GatewayIn(line).Some? then GatewayIn(line) else lastGateway
  {
    lastGateway' := lastGateway;
    if Contains(Lower(line), "connecting to gateway-") {
      var m := Search(line, Gateway);
      if m.Some? {
        lastGateway' := Some(m.value.groups[0]);
      } else {
        assert GatewayIn(line) == None;
      }
    } else {
      assert GatewayIn(line) == None;
    }
  }

  /** A kept line: the tenant field. */
  method TenantRule(line: string, info: HostInfo) returns (info': HostInfo)
    ensures info' == if TenantIn(line).Some? then info.(tenant := TenantIn(line).value) else info
  {
    info' := info;
    if Contains(Lower(line), "config host:addon.goskope.com url:") {
      var m := Search(line, Tenant);
      if m.Some? {
        info' := info.(tenant := Strip(m.value.groups[0]));
      } else {
        assert TenantIn(line) == None;
      }
    } else {
      assert TenantIn(line) == None;
    }
  }

  /** A kept line: the three user-agent fields. */
  method AgentRule(line: string, info: HostInfo) returns (info': HostInfo)
    ensures info' == if AgentIn(line).Some?
      then info.(osVersion := AgentIn(line).value.osVersion,
                 clientVersion := AgentIn(line).value.clientVersion,
                 hostname := AgentIn(line).value.hostname)
      else info
  {
    info' := info;
    if Contains(Lower(line), "config setting sta user agent") {
      var m := Search(line, UserAgent);
      if m.Some? {
        info' := info.(osVersion := Strip(m.value.groups[0]),
                       clientVersion := Strip(m.value.groups[1]),
                       hostname := Strip(m.value.groups[2]));
      } else {
        assert AgentIn(line) == None;
      }
    } else {
      assert AgentIn(line) == None;
    }
  }

  /** A kept line: PoP row. */
  method PopRule(line: string, stamp: Stamp, pops: seq<Stamped<string>>) returns (pops': seq<Stamped<string>>)
    requires !stamp.Unparsable?
    ensures pops' == pops + ToSeq(PopRow(line, stamp))
  {
    pops' := pops;
    var lower := Lower(line);
    if Contains(lower, "tunnel established to gateway") && Contains(lower, "pop:") {
      if stamp.At? {
        pops' := pops + [Stamped(stamp.micros, Strip(line))];
      }
    }
  }

  /** A kept line: error/warning row. */
  method ErrorRule(line: string, stamp: Stamp, errors: seq<Stamped<string>>) returns (errors': seq<Stamped<string>>)
    requires !stamp.Unparsable?
    ensures errors' == errors + ToSeq(ErrorRow(line, stamp))
  {
    errors' := errors;
    var lower := Lower(line);
    if stamp.At? && (Contains(lower, " error ") || Contains(lower, " warn ")) {
      errors' := errors + [Stamped(stamp.micros, Strip(line))];
    }
  }

  /** A kept line: steering message. */
  method SteeringRule(line: string, steering: seq<string>) returns (steering': seq<string>)
    ensures steering' == steering + ToSeq(SteeringIn(line))
  {
    steering' := steering;
    if Contains(Lower(line), "dynamic steering enhancement") {
      steering' := steering + [Strip(line)];
    }
  }

  /** A dropped line changes no result. */
  lemma DroppedLineChangesNothing(lines: seq<string>, line: string)
    requires LineStamp(line).Unparsable?
    ensures ParseLog(lines + [line]) == ParseLog(lines)
  {
    var all := lines + [line];
    assert all[..|lines|] == lines;
    assert TunnelOf(line) == None && BypassOf(line) == None && PopOf(line) == None;
    assert RttOf(line) == None && ErrorOf(line) == None && SteeringOf(line) == None;
    assert LastMatch(all, GatewayOf) == LastMatch(lines, GatewayOf);
    assert LastMatch(all, TenantOf) == LastMatch(lines, TenantOf);
    assert LastMatch(all, AgentOf) == LastMatch(lines, AgentOf);
  }

  /** One more kept line read with timestamp `stamp` extends each result by what that line contributes. */
  lemma KeptLineExtends(lines: seq<string>, line: string, stamp: Stamp)
    requires stamp == LineStamp(line) && !stamp.Unparsable?
    ensures var p, q := ParseLog(lines), ParseLog(lines + [line]);
      && q.tunnels == p.tunnels + ToSeq(TunnelRow(line, stamp))
      && q.bypasses == p.bypasses + ToSeq(BypassRow(line, stamp))
      && q.pops == p.pops + ToSeq(PopRow(line, stamp))
      && q.rtts == p.rtts + ToSeq(RttRow(line, stamp))
      && q.errors == p.errors + ToSeq(ErrorRow(line, stamp))
      && q.lastGateway == (if GatewayIn(line).Some? then GatewayIn(line) else p.lastGateway)
      && q.steering == p.steering + ToSeq(SteeringIn(line))
      && q.info == (if AgentIn(line).Some?
                    then p.info.(osVersion := AgentIn(line).value.osVersion,
                                 clientVersion := AgentIn(line).value.clientVersion,
                                 hostname := AgentIn(line).value.hostname)
                    else p.info).(tenant := if TenantIn(line).Some? then TenantIn(line).value else p.info.tenant)
  {
    assert (lines + [line])[..|lines|] == lines;
  }

  lemma PrefixStep(lines: seq<string>, i: nat)
    requires i < |lines|
    ensures lines[..i + 1] == lines[..i] + [lines[i]]
  {
  }

  method ParseLogLines(lines: seq<string>) returns (result: Parsed)
    ensures result == ParseLog(lines)
  {
    var tunnels: seq<Stamped<Flow>> := [];
    var bypasses: seq<Stamped<Flow>> := [];
    var pops: seq<Stamped<string>> := [];
    var rtts: seq<Stamped<Rtt>> := [];
    var errors: seq<Stamped<string>> := [];
    var lastGateway: Option<string> := None;
    var steering: seq<string> := [];
    var info := HostInfo("", "", "", "");
    for i := 0 to |lines|
      invariant Parsed(tunnels, bypasses, pops, rtts, errors, lastGateway, steering, info) == ParseLog(lines[..i])
    {
      var line := lines[i];
      PrefixStep(lines, i);
      var stamp := LineStamp(line);
      if stamp.Unparsable? {
        DroppedLineChangesNothing(lines[..i], line);
        continue;
      }
      KeptLineExtends(lines[..i], line, stamp);
      tunnels, bypasses := FlowRule(line, stamp, tunnels, bypasses);
      pops := PopRule(line, stamp, pops);
      rtts := RttRule(line, stamp, rtts);
      errors := ErrorRule(line, stamp, errors);
      lastGateway := GatewayRule(line, lastGateway);
      steering := SteeringRule(line, steering);
      info := TenantRule(line, info);
      info := AgentRule(line, info);
    }
    assert lines[..|lines|] == lines;
    result := Parsed(tunnels, bypasses, pops, rtts, errors, lastGateway, steering, info);
  }

  // ---------------------------------------------------------------------------
  // Properties of the results

  /** Rows are gathered in line order: the rows of a concatenation are the rows of its parts. */
  lemma {:induction false} GatherAppend<T>(a: seq<string>, b: seq<string>, f: string -> Option<T>)
    ensures Gather(a + b, f) == Gather(a, f) + Gather(b, f)
    decreases |b|
  {
    if b == [] {
      assert a + b == a;
    } else {
      var b', l := b[..|b| - 1], b[|b| - 1];
      assert (a + b)[..|a + b| - 1] == a + b';
      GatherAppend(a, b', f);
    }
  }

  /** A row is in the result exactly when some line contributes it. */
  lemma {:induction false} GatherMembers<T>(lines: seq<string>, f: string -> Option<T>, x: T)
    ensures x in Gather(lines, f) <==> exists i | 0 <= i < |lines| :: f(lines[i]) == Some(x)
  {
    if lines != [] {
      var init := lines[..|lines| - 1];
      GatherMembers(init, f, x);
      if exists i | 0 <= i < |init| :: f(init[i]) == Some(x) {
        var i :| 0 <= i < |init| && f(init[i]) == Some(x);
        assert f(lines[i]) == Some(x);
      }
      if exists i | 0 <= i < |lines| :: f(lines[i]) == Some(x) {
        var i :| 0 <= i < |lines| && f(lines[i]) == Some(x);
        if i < |init| {
          assert f(init[i]) == Some(x);
        }
      }
    }
  }

  /** The last match is the value of a line after which no line gives one, and there is none only when no line gives one. */
  lemma {:induction false} LastMatchIsLast<T>(lines: seq<string>, f: string -> Option<T>)
    ensures LastMatch(lines, f).None? <==> forall i | 0 <= i < |lines| :: f(lines[i]).None?
    ensures LastMatch(lines, f).Some? ==>
      exists i | 0 <= i < |lines| :: f(lines[i]) == LastMatch(lines, f) && forall j | i < j < |lines| :: f(lines[j]).None?
  {
    if lines != [] {
      var init, l := lines[..|lines| - 1], lines[|lines| - 1];
      LastMatchIsLast(init, f);
      if f(l).Some? {
        assert f(lines[|lines| - 1]) == LastMatch(lines, f);
      } else {
        assert forall i | 0 <= i < |init| :: lines[i] == init[i];
        if LastMatch(init, f).Some? {
          var i :| 0 <= i < |init| && f(init[i]) == LastMatch(init, f) && forall j | i < j < |init| :: f(init[j]).None?;
          assert f(lines[i]) == LastMatch(lines, f);
        }
      }
    }
  }

  /** A line without a timestamp adds no row to the five tables (it can still set the header fields). */
  lemma UnstampedLineAddsNoRow(lines: seq<string>, line: string)
    requires LineStamp(line).NoStamp?
    ensures var p, q := ParseLog(lines), ParseLog(lines + [line]);
      q.tunnels == p.tunnels && q.bypasses == p.bypasses && q.pops == p.pops && q.rtts == p.rtts && q.errors == p.errors
  {
    KeptLineExtends(lines, line, LineStamp(line));
  }

  /**
    A tunnel row: its line is a stamped tunnelling line. The host is the run after the
    first "host:", the address the run after the "addr:" that follows the first
    "host:" with a host run and a comma, and the process the stripped one-line text
    after the first "process:" that is followed by "," or " to host:". Host and
    address are non-empty runs without spaces or commas.
   */
  lemma TunnelRowFacts(line: string, stamp: Stamp)
    requires TunnelRow(line, stamp).Some?
    ensures var r := TunnelRow(line, stamp).value;
      var hp := Search(line, TunnelProcess).value;
      var hh := Search(line, TunnelHost).value;
      var ha := Search(line, TunnelAddr).value;
      && stamp == At(r.ts) && IsTunnelLine(line) && BypassRow(line, stamp).None?
      && HasAt(line, hh.at, "host:") && TokenLayout(line, hh.at + 5, r.row.host, NonSpaceComma)
      && HasAt(line, ha.at, "host:") && AddrLayout(line, ha.at + 5, r.row.addr)
      && HasAt(line, hp.at, "process:") && ProcessLayout(line, hp.at + 8, hp.groups[0])
      && r.row.process == Strip(hp.groups[0])
      && r.row.host != [] && AllIn(r.row.host, NonSpaceComma)
      && r.row.addr != [] && AllIn(r.row.addr, NonSpaceComma)
      && AllIn(r.row.process, NonNewline) && r.row.process == Strip(r.row.process)
  {
    var hp := Search(line, TunnelProcess).value;
    var hh := Search(line, TunnelHost).value;
    var ha := Search(line, TunnelAddr).value;
    TunnelProcessHit(line);
    TunnelHostHit(line);
    TunnelAddrHit(line);
    var process := hp.groups[0];
    StripAllIn(process, NonNewline);
    StripIdempotent(process);
  }

  /** The tunnel process search's hit: "process:" and the lazy process field after it. */
  lemma TunnelProcessHit(line: string)
    requires Search(line, TunnelProcess).Some?
    ensures var h := Search(line, TunnelProcess).value;
      HasAt(line, h.at, "process:") && ProcessLayout(line, h.at + 8, h.groups[0]) && AllIn(h.groups[0], NonNewline)
  {
    SearchSound(line, TunnelProcess);
  }

  /** The tunnel host search's hit: "host:" and the token after it. */
  lemma TunnelHostHit(line: string)
    requires Search(line, TunnelHost).Some?
    ensures var h := Search(line, TunnelHost).value;
      HasAt(line, h.at, "host:") && TokenLayout(line, h.at + 5, h.groups[0], NonSpaceComma)
  {
    SearchSound(line, TunnelHost);
  }

  /** The tunnel address search's hit: "host:", a host token, and the address after "addr:". */
  lemma TunnelAddrHit(line: string)
    requires Search(line, TunnelAddr).Some?
    ensures var h := Search(line, TunnelAddr).value;
      HasAt(line, h.at, "host:") && AddrLayout(line, h.at + 5, h.groups[0])
  {
    SearchSound(line, TunnelAddr);
  }

  /**
    A bypass row: its line is a stamped bypass-manager line that is not a tunnelling
    line. The host is the run after the first "exception host:" and the address the run
    after the first "dest ip:", both in any case; both are non-empty runs without spaces
    or commas. The process is "UNKNOWN" when no "process:" (any case) is followed by a
    process run, and otherwise the stripped run after the first such "process:".
   */
  lemma BypassRowFacts(line: string, stamp: Stamp)
    requires BypassRow(line, stamp).Some?
    ensures var r := BypassRow(line, stamp).value;
      var hh := Search(line, BypassHost).value;
      var hi := Search(line, BypassDestIp).value;
      && stamp == At(r.ts) && !IsTunnelLine(line) && TunnelRow(line, stamp).None?
      && Contains(Lower(line), "bypassappmgr")
      && HasAt(Lower(line), hh.at, "exception host:") && TokenLayout(line, hh.at + 15, r.row.host, NonSpaceComma)
      && HasAt(Lower(line), hi.at, "dest ip:") && TokenLayout(line, hi.at + 8, r.row.addr, NonSpaceComma)
      && r.row.host != [] && AllIn(r.row.host, NonSpaceComma)
      && r.row.addr != [] && AllIn(r.row.addr, NonSpaceComma)
      && (Search(line, BypassProcess).None? ==> r.row.process == Unknown)
      && (Search(line, BypassProcess).Some? ==>
            var hp := Search(line, BypassProcess).value;
            && HasAt(Lower(line), hp.at, "process:")
            && TokenLayout(line, hp.at + 8, hp.groups[0], NonCommaNewline)
            && r.row.process == Strip(hp.groups[0])
            && AllIn(r.row.process, NonCommaNewline) && r.row.process == Strip(r.row.process))
  {
    BypassHostHit(line);
    BypassDestIpHit(line);
    var process := Search(line, BypassProcess);
    if process.Some? {
      BypassProcessHit(line);
      var g := process.value.groups[0];
      StripAllIn(g, NonCommaNewline);
      StripIdempotent(g);
    }
  }

  /** The bypass host search's hit: "exception host:" (any case) and the token after it. */
  lemma BypassHostHit(line: string)
    requires Search(line, BypassHost).Some?
    ensures var h := Search(line, BypassHost).value;
      HasAt(Lower(line), h.at, "exception host:") && TokenLayout(line, h.at + 15, h.groups[0], NonSpaceComma)
  {
    SearchSound(line, BypassHost);
  }

  /** The bypass address search's hit: "dest ip:" (any case) and the token after it. */
  lemma BypassDestIpHit(line: string)
    requires Search(line, BypassDestIp).Some?
    ensures var h := Search(line, BypassDestIp).value;
      HasAt(Lower(line), h.at, "dest ip:") && TokenLayout(line, h.at + 8, h.groups[0], NonSpaceComma)
  {
    SearchSound(line, BypassDestIp);
  }

  /** The bypass process search's hit: "process:" (any case) and the run after it. */
  lemma BypassProcessHit(line: string)
    requires Search(line, BypassProcess).Some?
    ensures var h := Search(line, BypassProcess).value;
      && HasAt(Lower(line), h.at, "process:") && TokenLayout(line, h.at + 8, h.groups[0], NonCommaNewline)
      && AllIn(h.groups[0], NonCommaNewline)
  {
    SearchSound(line, BypassProcess);
  }

  /** The tenant search's hit: "url:https://addon-" and the tenant layout after it. */
  lemma TenantHit(line: string)
    requires Search(line, Tenant).Some?
    ensures var h := Search(line, Tenant).value;
      HasAt(line, h.at, "url:https://addon-") && TenantLayout(line, h.at + 18, h.groups[0])
  {
    SearchSound(line, Tenant);
  }

  /**
    An RTT row: its line is a stamped line holding "post client rtt" and "pop:" in any
    case. At the first "pop:" followed by the RTT fields, the PoP is the run right after
    "pop:", the IP the run after the next "ip:" and the milliseconds the value of the
    digits after the following "rtt:".
   */
  lemma RttRowFacts(line: string)
    requires RttOf(line).Some?
    ensures var r := RttOf(line).value;
      var h := Search(line, RttFields).value;
      var g := h.groups;
      && LineStamp(line) == At(r.ts)
      && Contains(Lower(line), "post client rtt") && Contains(Lower(line), "pop:")
      && HasAt(line, h.at, "pop:") && RttLayout(line, h.at + 4, g)
      && |g| == 3 && r.row.pop == g[0] && r.row.ip == g[1]
      && r.row.pop != [] && AllIn(r.row.pop, NonSpace)
      && r.row.ip != [] && AllIn(r.row.ip, NonSpace)
      && g[2] != [] && AllDigits(g[2]) && r.row.millis == NatOf(g[2]) < Pow10(|g[2]|)
  {
    var m := Search(line, RttFields);
    assert m.Some? && LineStamp(line).At? by {
      assert RttOf(line) == RttRow(line, LineStamp(line));
    }
    RttHitFacts(line);
  }

  /** Where the RTT pattern is found: "pop:" at the hit, then the PoP run, "ip:" run and "rtt:" digits. */
  lemma RttHitFacts(line: string)
    requires Search(line, RttFields).Some?
    ensures var h := Search(line, RttFields).value;
      && HasAt(line, h.at, "pop:") && RttLayout(line, h.at + 4, h.groups) && |h.groups| == 3
  {
    SearchSound(line, RttFields);
  }

  /** A line gives an error row exactly when it is stamped and holds " error " or " warn " in any case; the row is the stripped line. */
  lemma ErrorRowIff(line: string)
    ensures ErrorOf(line).Some? <==> LineStamp(line).At? && IsErrorLine(line)
    ensures ErrorOf(line).Some? ==> ErrorOf(line).value == Stamped(LineStamp(line).micros, Strip(line))
  {
  }

  /**
    A gateway name follows the first "connecting to " (any case) that is followed by
    "gateway-" (any case) and a name: it starts with that "gateway-" and runs to the
    next colon or the end of the line.
   */
  lemma GatewayFacts(line: string)
    requires GatewayIn(line).Some?
    ensures var g := GatewayIn(line).value;
      var h := Search(line, Gateway).value;
      && HasAt(Lower(line), h.at, "connecting to ") && GatewayLayout(line, h.at + 14, g)
      && |g| > 8 && Lower(g[..8]) == "gateway-" && ':' !in g[8..]
  {
    var m := Search(line, Gateway).value;
    assert HasAt(Lower(line), m.at, "connecting to ") && GatewayLayout(line, m.at + 14, m.groups[0]) by {
      SearchSound(line, Gateway);
    }
    GatewayShape(m.groups);
    assert GatewayIn(line).value == m.groups[0];
  }

  /**
    A tenant is the stripped text after the first "url:https://addon-" that is followed
    by a slug without dots, a dot and at least one more character on the line; it keeps
    that dot.
   */
  lemma TenantFacts(line: string)
    requires TenantIn(line).Some?
    ensures var h := Search(line, Tenant).value;
      && HasAt(line, h.at, "url:https://addon-") && TenantLayout(line, h.at + 18, h.groups[0])
      && TenantIn(line).value == Strip(h.groups[0])
      && '.' in TenantIn(line).value
  {
    TenantHit(line);
    TenantShape(Search(line, Tenant).value.groups);
  }

  /**
    The user-agent fields are the stripped three fields after the first "STA user
    agent:" that is followed by the fields; the OS and client version fields hold no ';'.
   */
  lemma AgentFacts(line: string)
    requires AgentIn(line).Some?
    ensures var h := Search(line, UserAgent).value;
      && HasAt(line, h.at, "STA user agent:") && AgentSpaced(line, h.at + 15, h.groups)
      && AgentIn(line).value == Agent(Strip(h.groups[0]), Strip(h.groups[1]), Strip(h.groups[2]))
      && ';' !in AgentIn(line).value.osVersion && ';' !in AgentIn(line).value.clientVersion
  {
    var m := Search(line, UserAgent).value;
    assert HasAt(line, m.at, "STA user agent:") && AgentSpaced(line, m.at + 15, m.groups) by {
      SearchSound(line, UserAgent);
    }
    AgentShape(m.groups);
    assert AgentIn(line).value == Agent(Strip(m.groups[0]), Strip(m.groups[1]), Strip(m.groups[2]));
  }

  /** A line that gives a value with no later line giving one determines the last match. */
  lemma LastMatchUnique<T>(lines: seq<string>, f: string -> Option<T>)
    ensures forall i | 0 <= i < |lines| ::
      f(lines[i]).Some? && (forall j | i < j < |lines| :: f(lines[j]).None?) ==> LastMatch(lines, f) == f(lines[i])
  {
    forall i | 0 <= i < |lines| && f(lines[i]).Some? && (forall j | i < j < |lines| :: f(lines[j]).None?)
      ensures LastMatch(lines, f) == f(lines[i])
    {
      LastMatchFrom(lines, f, i);
    }
  }

  lemma {:induction false} LastMatchFrom<T>(lines: seq<string>, f: string -> Option<T>, i: nat)
    requires i < |lines| && f(lines[i]).Some?
    requires forall j | i < j < |lines| :: f(lines[j]).None?
    ensures LastMatch(lines, f) == f(lines[i])
    decreases |lines|
  {
    if i < |lines| - 1 {
      var init := lines[..|lines| - 1];
      assert f(lines[|lines| - 1]).None?;
      assert init[i] == lines[i];
      LastMatchFrom(init, f, i);
    }
  }
}
