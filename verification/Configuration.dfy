/** The service configuration: its validation, the probers it asks for and the
    order in which its targets are preferred (internal/config, internal/probe). */
module Configuration {
  import opened Prelude
  import opened Addresses
  import opened StableSort

  datatype ProbeMethod = Ping | TCP | UDP | HTTP | Other(name: string)

  datatype Target = Target(
    name: string, ip: string, weight: int, probe: ProbeMethod, port: int, url: string)

  /** Durations are in nanoseconds. */
  datatype Config = Config(
    probeInterval: int, probeTimeout: int, egressDevice: string,
    stableRounds: int, finalIP: string, targets: seq<Target>)

  // ---------- text ----------

  /** unicode.IsSpace */
  predicate IsSpace(c: char) {
    || '\t' <= c <= '\r' || c == ' ' || c == '\U{0085}' || c == '\U{00A0}'
    || c == '\U{1680}' || '\U{2000}' <= c <= '\U{200A}' || c == '\U{2028}'
    || c == '\U{2029}' || c == '\U{202F}' || c == '\U{205F}' || c == '\U{3000}'
  }

  /** The blanks by code point. */
  lemma SpaceCodePoints(c: char)
    ensures IsSpace(c) <==>
              c as int in {9, 10, 11, 12, 13, 32, 133, 160, 5760, 8192, 8193, 8194, 8195, 8196, 8197, 8198, 8199,
                           8200, 8201, 8202, 8232, 8233, 8239, 8287, 12288}
  {
  }

  predicate Blank(s: string) {
    forall i :: 0 <= i < |s| ==> IsSpace(s[i])
  }

  /** strings.TrimSpace */
  function TrimSpace(s: string): (r: string)
    ensures r == "" <==> Blank(s)
    ensures r != "" ==> !IsSpace(r[0]) && !IsSpace(r[|r| - 1])
  {
    if s == "" then ""
    else if IsSpace(s[0]) then TrimSpace(s[1..])
    else if IsSpace(s[|s| - 1]) then TrimSpace(s[..|s| - 1])
    else s
  }

  lemma BlankConcat(a: string, b: string)
    requires Blank(a) && Blank(b)
    ensures Blank(a + b)
  {
  }

  /** What is cut off is blank, at both ends. */
  lemma {:induction false} TrimSpaceCuts(s: string) returns (left: string, right: string)
    ensures s == left + TrimSpace(s) + right && Blank(left) && Blank(right)
  {
    hide Blank, IsSpace;
    left, right := "", "";
    assert Blank("") by {
      BlankEmpty();
    }
    if s != "" && IsSpace(s[0]) {
      var l;
      l, right := TrimSpaceCuts(s[1..]);
      left := [s[0]] + l;
      BlankOne(s[0]);
      BlankConcat([s[0]], l);
      assert s == [s[0]] + s[1..];
      assert s == left + TrimSpace(s) + right;
    } else if s != "" && IsSpace(s[|s| - 1]) {
      var r;
      left, r := TrimSpaceCuts(s[..|s| - 1]);
      right := r + [s[|s| - 1]];
      BlankOne(s[|s| - 1]);
      BlankConcat(r, [s[|s| - 1]]);
      assert s == s[..|s| - 1] + [s[|s| - 1]];
      assert s == left + TrimSpace(s) + right;
    }
  }

  lemma BlankEmpty()
    ensures Blank("")
  {
  }

  lemma BlankOne(c: char)
    requires IsSpace(c)
    ensures Blank([c])
  {
  }

  // ---------- validation ----------

  predicate NeedsAddress(t: Target) {
    t.probe.Ping? || t.probe.TCP? || t.probe.UDP?
  }

  predicate TargetOK(net: Codec, t: Target) {
    && !Blank(t.name)
    && t.weight >= 0
    && !t.probe.Other?
    && (NeedsAddress(t) ==> t.ip != "" && net.Legal(t.ip))
    && (t.probe.TCP? || t.probe.UDP? ==> 1 <= t.port <= 65535)
    && (t.probe.HTTP? ==> t.url != "")
  }

  predicate DistinctNames(ts: seq<Target>) {
    forall i, j :: 0 <= i < j < |ts| ==> ts[i].name != ts[j].name
  }

  function Names(ts: seq<Target>): set<string> {
    set i | 0 <= i < |ts| :: ts[i].name
  }

  predicate GlobalsOK(net: Codec, c: Config) {
    && 0 < c.probeTimeout < c.probeInterval
    && c.stableRounds >= 1
    && !Blank(c.egressDevice)
    && c.finalIP != "" && net.Legal(c.finalIP)
  }

  /** What a configuration that passes Validate is known to satisfy. */
  predicate WellFormed(net: Codec, c: Config) {
    && GlobalsOK(net, c)
    && c.targets != []
    && (forall i :: 0 <= i < |c.targets| ==> TargetOK(net, c.targets[i]))
    && DistinctNames(c.targets)
  }

  datatype TargetProblem = NameEmpty | WeightNegative | AddressMissing | AddressIllegal
    | PortIllegal | URLMissing | ProbeUnknown

  predicate TargetFault(net: Codec, t: Target, p: TargetProblem) {
    match p
    case NameEmpty => Blank(t.name)
    case WeightNegative => t.weight < 0
    case AddressMissing => NeedsAddress(t) && t.ip == ""
    case AddressIllegal => NeedsAddress(t) && t.ip != "" && !net.Legal(t.ip)
    case PortIllegal => (t.probe.TCP? || t.probe.UDP?) && !(1 <= t.port <= 65535)
    case URLMissing => t.probe.HTTP? && t.url == ""
    case ProbeUnknown => t.probe.Other?
  }

  datatype Problem = IntervalNotPositive | TimeoutNotPositive | TimeoutTooLong | RoundsTooFew
    | EgressEmpty | FinalMissing | FinalIllegal | NoTargets
    | BadTarget(index: nat, reasons: seq<TargetProblem>) | DuplicateName(name: string)

  /** Two of the first `n` targets carry the nonempty name `name`. */
  ghost predicate Repeated(ts: seq<Target>, n: nat, name: string)
    requires n <= |ts|
  {
    name != "" && exists i, j :: 0 <= i < j < n && ts[i].name == name && ts[j].name == name
  }

  /** The complaint `p` is about a defect `c` really has. */
  ghost predicate Justified(net: Codec, c: Config, p: Problem) {
    match p
    case IntervalNotPositive => c.probeInterval <= 0
    case TimeoutNotPositive => c.probeTimeout <= 0
    case TimeoutTooLong => 0 < c.probeInterval <= c.probeTimeout
    case RoundsTooFew => c.stableRounds < 1
    case EgressEmpty => Blank(c.egressDevice)
    case FinalMissing => c.finalIP == ""
    case FinalIllegal => c.finalIP != "" && !net.Legal(c.finalIP)
    case NoTargets => c.targets == []
    case BadTarget(i, rs) =>
      && i < |c.targets| && rs != []
      && forall r :: r in rs <==> TargetFault(net, c.targets[i], r)
    case DuplicateName(name) => Repeated(c.targets, |c.targets|, name)
  }

  method ValidateTarget(net: Codec, t: Target) returns (errs: seq<TargetProblem>)
    ensures forall p :: p in errs <==> TargetFault(net, t, p)
    ensures errs == [] <==> TargetOK(net, t)
  {
    errs := [];
    if TrimSpace(t.name) == "" {
      errs := errs + [NameEmpty];
    }
    if t.weight < 0 {
      errs := errs + [WeightNegative];
    }
    match t.probe {
      case Ping =>
        if t.ip == "" {
          errs := errs + [AddressMissing];
        } else if net.parse(t.ip).None? {
          errs := errs + [AddressIllegal];
        }
      case TCP | UDP =>
        if t.ip == "" {
          errs := errs + [AddressMissing];
        } else if net.parse(t.ip).None? {
          errs := errs + [AddressIllegal];
        }
        if t.port < 1 || t.port > 65535 {
          errs := errs + [PortIllegal];
        }
      case HTTP =>
        if t.url == "" {
          errs := errs + [URLMissing];
        }
      case Other(_) =>
        errs := errs + [ProbeUnknown];
    }
    assert TargetOK(net, t) <==> forall p :: !TargetFault(net, t, p) by {
      NoFaultIsOK(net, t);
    }
    assert errs != [] ==> errs[0] in errs;
  }

  lemma NoFaultIsOK(net: Codec, t: Target)
    ensures TargetOK(net, t) <==> forall p :: !TargetFault(net, t, p)
  {
    if !TargetOK(net, t) {
      assert
        || TargetFault(net, t, NameEmpty) || TargetFault(net, t, WeightNegative)
        || TargetFault(net, t, AddressMissing) || TargetFault(net, t, AddressIllegal)
        || TargetFault(net, t, PortIllegal) || TargetFault(net, t, URLMissing)
        || TargetFault(net, t, ProbeUnknown);
    }
  }

  method ValidateTiming(net: Codec, c: Config) returns (errs: seq<Problem>)
    ensures forall p :: p in errs <==>
              Justified(net, c, p) && p in {IntervalNotPositive, TimeoutNotPositive, TimeoutTooLong, RoundsTooFew}
  {
    errs := [];
    if c.probeInterval <= 0 {
      errs := errs + [IntervalNotPositive];
    }
    if c.probeTimeout <= 0 {
      errs := errs + [TimeoutNotPositive];
    }
    if c.probeInterval > 0 && c.probeTimeout >= c.probeInterval {
      errs := errs + [TimeoutTooLong];
    }
    if c.stableRounds < 1 {
      errs := errs + [RoundsTooFew];
    }
  }

  method ValidateEgress(net: Codec, c: Config) returns (errs: seq<Problem>)
    ensures forall p :: p in errs <==>
              Justified(net, c, p) && p in {EgressEmpty, FinalMissing, FinalIllegal, NoTargets}
  {
    errs := [];
    if TrimSpace(c.egressDevice) == "" {
      errs := errs + [EgressEmpty];
    }
    if c.finalIP == "" {
      errs := errs + [FinalMissing];
    } else if net.parse(c.finalIP).None? {
      errs := errs + [FinalIllegal];
    }
    if |c.targets| == 0 {
      errs := errs + [NoTargets];
    }
  }

  /** The complaints about the fields outside the target list. */
  method ValidateGlobals(net: Codec, c: Config) returns (errs: seq<Problem>)
    ensures forall p :: p in errs <==> Justified(net, c, p) && !p.BadTarget? && !p.DuplicateName?
  {
    var timing := ValidateTiming(net, c);
    var egress := ValidateEgress(net, c);
    errs := timing + egress;
  }

  /** The nonempty names of the first `n` targets. */
  function Seen(ts: seq<Target>, n: nat): set<string>
    requires n <= |ts|
  {
    if n == 0 then {}
    else if ts[n - 1].name != "" then Seen(ts, n - 1) + {ts[n - 1].name}
    else Seen(ts, n - 1)
  }

  lemma {:induction false} SeenMember(ts: seq<Target>, n: nat, name: string)
    requires n <= |ts|
    ensures name in Seen(ts, n) <==> name != "" && exists k :: 0 <= k < n && ts[k].name == name
  {
    if n > 0 {
      SeenMember(ts, n - 1, name);
    }
  }

  lemma RepeatedNext(ts: seq<Target>, i: nat, name: string)
    requires i < |ts|
    ensures Repeated(ts, i + 1, name) <==>
              Repeated(ts, i, name) || (name == ts[i].name && name in Seen(ts, i))
  {
    SeenMember(ts, i, name);
  }

  /** `errs` holds only justified complaints about the target list, and one for
      each defect of its first `n` targets. */
  ghost predicate Covers(net: Codec, c: Config, n: nat, errs: seq<Problem>)
    requires n <= |c.targets|
  {
    && (forall p :: p in errs ==> (p.BadTarget? || p.DuplicateName?) && Justified(net, c, p))
    && (forall name :: Repeated(c.targets, n, name) ==> DuplicateName(name) in errs)
    && (forall k :: 0 <= k < n && !TargetOK(net, c.targets[k]) ==> Accused(errs, k))
  }

  ghost predicate Accused(errs: seq<Problem>, i: nat) {
    exists rs :: BadTarget(i, rs) in errs
  }

  /** What target `i` adds to the list: its own defects, then its name if an
      earlier target has it. */
  function Complaints(ts: seq<Target>, i: nat, reasons: seq<TargetProblem>): seq<Problem>
    requires i < |ts|
  {
    (if reasons == [] then [] else [BadTarget(i, reasons)])
    + (if ts[i].name != "" && ts[i].name in Seen(ts, i) then [DuplicateName(ts[i].name)] else [])
  }

  lemma ComplaintsJustified(net: Codec, c: Config, i: nat, reasons: seq<TargetProblem>, p: Problem)
    requires i < |c.targets|
    requires forall r :: r in reasons <==> TargetFault(net, c.targets[i], r)
    requires p in Complaints(c.targets, i, reasons)
    ensures (p.BadTarget? || p.DuplicateName?) && Justified(net, c, p)
  {
    if p.DuplicateName? {
      RepeatedNext(c.targets, i, p.name);
      RepeatedStays(c.targets, i + 1, p.name);
    }
  }

  lemma CoversNext(net: Codec, c: Config, i: nat, errs: seq<Problem>, reasons: seq<TargetProblem>)
    requires i < |c.targets| && Covers(net, c, i, errs)
    requires forall r :: r in reasons <==> TargetFault(net, c.targets[i], r)
    requires reasons == [] <==> TargetOK(net, c.targets[i])
    ensures Covers(net, c, i + 1, errs + Complaints(c.targets, i, reasons))
  {
    var more := Complaints(c.targets, i, reasons);
    var all := errs + more;
    forall p | p in all
      ensures (p.BadTarget? || p.DuplicateName?) && Justified(net, c, p)
    {
      if p in more {
        ComplaintsJustified(net, c, i, reasons, p);
      }
    }
    forall k | 0 <= k < i + 1 && !TargetOK(net, c.targets[k])
      ensures Accused(all, k)
    {
      if k == i {
        assert more[0] in all;
      } else {
        assert Accused(errs, k);
        var rs :| BadTarget(k, rs) in errs;
        assert BadTarget(k, rs) in all;
      }
    }
    forall name | Repeated(c.targets, i + 1, name)
      ensures DuplicateName(name) in all
    {
      RepeatedNext(c.targets, i, name);
    }
  }

  /** The complaints about the target list. */
  method ValidateTargets(net: Codec, c: Config) returns (errs: seq<Problem>)
    ensures Covers(net, c, |c.targets|, errs)
  {
    errs := [];
    var names: set<string> := {};
    for i := 0 to |c.targets|
      invariant names == Seen(c.targets, i)
      invariant Covers(net, c, i, errs)
    {
      var t := c.targets[i];
      var reasons := ValidateTarget(net, t);
      CoversNext(net, c, i, errs, reasons);
      ghost var after := errs + Complaints(c.targets, i, reasons);
      if |reasons| > 0 {
        errs := errs + [BadTarget(i, reasons)];
      }
      if t.name != "" {
        if t.name in names {
          errs := errs + [DuplicateName(t.name)];
        }
        names := names + {t.name};
      }
      assert errs == after;
    }
  }

  lemma RepeatedStays(ts: seq<Target>, n: nat, name: string)
    requires n <= |ts| && Repeated(ts, n, name)
    ensures Repeated(ts, |ts|, name)
  {
  }

  /** Every complaint is justified, no defect goes without one, and there is no
      complaint exactly when the configuration is well formed. */
  method Validate(net: Codec, c: Config) returns (errs: seq<Problem>)
    ensures forall p :: p in errs ==> Justified(net, c, p)
    ensures forall p :: Justified(net, c, p) && !p.BadTarget? ==> p in errs
    ensures forall i :: 0 <= i < |c.targets| && !TargetOK(net, c.targets[i]) ==>
              exists rs :: BadTarget(i, rs) in errs
    ensures errs == [] <==> WellFormed(net, c)
  {
    var globals := ValidateGlobals(net, c);
    var others := ValidateTargets(net, c);
    errs := globals + others;
    forall i | 0 <= i < |c.targets| && !TargetOK(net, c.targets[i])
      ensures exists rs :: BadTarget(i, rs) in errs
    {
      assert Accused(others, i);
      var rs :| BadTarget(i, rs) in others;
      assert BadTarget(i, rs) in errs;
    }
    NoProblemIsWellFormed(net, c, errs);
  }

  lemma DefectIsIllFormed(net: Codec, c: Config, p: Problem)
    requires Justified(net, c, p)
    ensures !WellFormed(net, c)
  {
    if p.BadTarget? {
      assert p.reasons[0] in p.reasons;
      NoFaultIsOK(net, c.targets[p.index]);
    }
  }

  /** A list of justified complaints that misses no defect is empty exactly for
      a well-formed configuration. */
  lemma NoProblemIsWellFormed(net: Codec, c: Config, errs: seq<Problem>)
    requires forall p :: p in errs ==> Justified(net, c, p)
    requires forall p :: Justified(net, c, p) && !p.BadTarget? ==> p in errs
    requires forall i :: 0 <= i < |c.targets| && !TargetOK(net, c.targets[i]) ==>
               exists rs :: BadTarget(i, rs) in errs
    ensures errs == [] <==> WellFormed(net, c)
  {
    if errs == [] {
      assert !Justified(net, c, IntervalNotPositive) && !Justified(net, c, TimeoutNotPositive);
      assert !Justified(net, c, TimeoutTooLong) && !Justified(net, c, RoundsTooFew);
      assert !Justified(net, c, EgressEmpty) && !Justified(net, c, FinalMissing);
      assert !Justified(net, c, FinalIllegal) && !Justified(net, c, NoTargets);
      forall i, j | 0 <= i < j < |c.targets|
        ensures c.targets[i].name != c.targets[j].name
      {
        assert TargetOK(net, c.targets[i]);
        assert !Justified(net, c, DuplicateName(c.targets[i].name));
      }
    } else {
      DefectIsIllFormed(net, c, errs[0]);
    }
  }

  // ---------- probers ----------

  datatype Prober = PingProber(address: IPv4, timeout: int)
    | TCPProber(host: string, port: int, timeout: int)
    | UDPProber(host: string, port: int, timeout: int)
    | HTTPProber(url: string, timeout: int)

  /** probe.New: None stands for its error. */
  function NewProber(net: Codec, t: Target, timeout: int): (r: Option<Prober>)
    ensures r.None? <==> t.probe.Other? || (t.probe.Ping? && !net.Legal(t.ip))
  {
    match t.probe
    case Ping => (match net.parse(t.ip) case None => None case Some(a) => Some(PingProber(a, timeout)))
    case TCP => Some(TCPProber(t.ip, t.port, timeout))
    case UDP => Some(UDPProber(t.ip, t.port, timeout))
    case HTTP => Some(HTTPProber(t.url, timeout))
    case Other(_) => None
  }

  /** The prober is of the target's method, is aimed at the end point that method
      reads from the target, and waits for `timeout`. */
  predicate Serves(net: Codec, p: Prober, t: Target, timeout: int) {
    match p
    case PingProber(address, wait) => t.probe == Ping && net.parse(t.ip) == Some(address) && wait == timeout
    case TCPProber(host, port, wait) => t.probe == TCP && host == t.ip && port == t.port && wait == timeout
    case UDPProber(host, port, wait) => t.probe == UDP && host == t.ip && port == t.port && wait == timeout
    case HTTPProber(url, wait) => t.probe == HTTP && url == t.url && wait == timeout
  }

  /** The prober built for a target is the one that serves it. */
  lemma NewProberServes(net: Codec, t: Target, timeout: int, p: Prober)
    ensures NewProber(net, t, timeout) == Some(p) <==> Serves(net, p, t, timeout)
  {
  }

  /** Same method, and the same end point as that method reads it. */
  predicate SameEndPoint(net: Codec, t: Target, u: Target) {
    && t.probe == u.probe
    && (t.probe.Ping? ==> net.parse(t.ip) == net.parse(u.ip))
    && (t.probe.TCP? || t.probe.UDP? ==> t.ip == u.ip && t.port == u.port)
    && (t.probe.HTTP? ==> t.url == u.url)
  }

  /** Two targets are probed alike exactly when end point and timeout are the same. */
  lemma ProbersCoincide(net: Codec, t: Target, timeout: int, u: Target, timeout': int)
    requires NewProber(net, t, timeout).Some? && NewProber(net, u, timeout').Some?
    ensures NewProber(net, t, timeout) == NewProber(net, u, timeout') <==>
              SameEndPoint(net, t, u) && timeout == timeout'
  {
  }

  // ---------- order of preference ----------

  function TargetWeight(t: Target): int {
    t.weight
  }

  /** Heaviest first, equal weights in configuration order. */
  function SortedTargets(c: Config): (r: seq<Target>)
    ensures StableOrder(c.targets, r, TargetWeight)
  {
    SortByKeyIsStable(c.targets, TargetWeight);
    SortByKey(c.targets, TargetWeight)
  }
}
