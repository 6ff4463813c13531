/** The fields of the terminal configuration editor: their text, what a line entered
    does to them, and when a form is complete (cmd/nexthop/config_tui.go). */
module Forms {
  import opened Prelude
  import opened Addresses
  import opened Configuration

  // ---------- fields and their text ----------

  /** The conversions the editor borrows from the Go library. */
  datatype Text = Text(
    atoi: string -> Option<int>, itoa: int -> string,
    parseDuration: string -> Option<int>, showDuration: int -> string,
    lower: string -> string)

  datatype GlobalField = ProbeInterval | ProbeTimeout | EgressDevice | StableRounds | FinalIP

  const GLOBAL_FIELDS := [ProbeInterval, ProbeTimeout, EgressDevice, StableRounds, FinalIP]

  function ShowGlobal(text: Text, c: Config, f: GlobalField): string {
    match f
    case ProbeInterval => text.showDuration(c.probeInterval)
    case ProbeTimeout => text.showDuration(c.probeTimeout)
    case EgressDevice => c.egressDevice
    case StableRounds => text.itoa(c.stableRounds)
    case FinalIP => c.finalIP
  }

  /** None stands for a rejected input. No global field touches the targets. */
  function ApplyGlobal(net: Codec, text: Text, c: Config, f: GlobalField, input: string): (r: Option<Config>)
    ensures r.Some? ==> r.value.targets == c.targets
    ensures r.Some? && f.EgressDevice? ==> !Blank(r.value.egressDevice)
    ensures r.Some? && f.StableRounds? ==> r.value.stableRounds >= 1
    ensures r.Some? && f.FinalIP? ==> net.Legal(r.value.finalIP)
  {
    var s := TrimSpace(input);
    match f
    case ProbeInterval =>
      (match text.parseDuration(s) case None => None case Some(d) => Some(c.(probeInterval := d)))
    case ProbeTimeout =>
      (match text.parseDuration(s) case None => None case Some(d) => Some(c.(probeTimeout := d)))
    case EgressDevice => if s == "" then None else Some(c.(egressDevice := s))
    case StableRounds =>
      (match text.atoi(s) case None => None case Some(n) => if n < 1 then None else Some(c.(stableRounds := n)))
    case FinalIP => if net.Legal(s) then Some(c.(finalIP := s)) else None
  }

  datatype FormField = NameField | IPField | WeightField | ProbeField | PortField | URLField

  /** The port or URL field is there only for the probes that use it. */
  function FormFields(p: ProbeMethod): (fs: seq<FormField>)
    ensures 4 <= |fs| <= 5
  {
    [NameField, IPField, WeightField, ProbeField]
    + (if p.TCP? || p.UDP? then [PortField] else [])
    + (if p.HTTP? then [URLField] else [])
  }

  function ProbeText(p: ProbeMethod): string {
    match p
    case Ping => "ping" case TCP => "tcp" case UDP => "udp" case HTTP => "http" case Other(s) => s
  }

  function ProbeOf(s: string): Option<ProbeMethod> {
    if s == "ping" then Some(Ping) else if s == "tcp" then Some(TCP)
    else if s == "udp" then Some(UDP) else if s == "http" then Some(HTTP) else None
  }

  function ShowField(text: Text, t: Target, f: FormField): string {
    match f
    case NameField => t.name
    case IPField => t.ip
    case WeightField => text.itoa(t.weight)
    case ProbeField => ProbeText(t.probe)
    case PortField => if t.port == 0 then "" else text.itoa(t.port)
    case URLField => t.url
  }

  /** Some target other than number `except` has the name. */
  predicate NameTaken(ts: seq<Target>, except: int, name: string) {
    exists i :: 0 <= i < |ts| && i != except && ts[i].name == name
  }

  predicate Prefixed(s: string, p: string) {
    |p| <= |s| && s[..|p|] == p
  }

  function SwitchProbe(t: Target, p: ProbeMethod): Target {
    match p
    case Ping => t.(probe := p, port := 0, url := "")
    case TCP | UDP => t.(probe := p, url := "")
    case HTTP => t.(probe := p, port := 0)
    case Other(_) => t.(probe := p)
  }

  function ApplyField(net: Codec, text: Text, ts: seq<Target>, except: int, t: Target, f: FormField, input: string): Option<Target> {
    var s := TrimSpace(input);
    match f
    case NameField => if s == "" || NameTaken(ts, except, s) then None else Some(t.(name := s))
    case IPField => if net.Legal(s) then Some(t.(ip := s)) else None
    case WeightField =>
      (match text.atoi(s) case None => None case Some(n) => if n < 0 then None else Some(t.(weight := n)))
    case ProbeField =>
      (match ProbeOf(text.lower(s)) case None => None case Some(p) => Some(SwitchProbe(t, p)))
    case PortField =>
      (match text.atoi(s) case None => None case Some(n) => if n < 1 || n > 65535 then None else Some(t.(port := n)))
    case URLField =>
      if Prefixed(s, "http://") || Prefixed(s, "https://") then Some(t.(url := s)) else None
  }

  /** The form shows four fields always, the port for tcp and udp, the URL for http;
      so it shows every field that a known probe needs. */
  lemma FieldsShown(p: ProbeMethod, f: FormField)
    ensures f in FormFields(p) <==>
              match f case PortField => p.TCP? || p.UDP? case URLField => p.HTTP? case _ => true
    ensures Needs(p, f) ==> f in FormFields(p)
  {
    var fs := FormFields(p);
    assert fs[0] == NameField && fs[1] == IPField && fs[2] == WeightField && fs[3] == ProbeField;
    assert |fs| == 5 <==> p.TCP? || p.UDP? || p.HTTP?;
    assert p.TCP? || p.UDP? ==> fs[4] == PortField;
    assert p.HTTP? ==> fs[4] == URLField;
  }

  /** The field's new value is the one the line stands for. */
  predicate Holds(text: Text, t: Target, f: FormField, s: string) {
    match f
    case NameField => t.name == s
    case IPField => t.ip == s
    case WeightField => text.atoi(s) == Some(t.weight)
    case ProbeField =>
      var p := text.lower(s);
      || (p == "ping" && t.probe == Ping) || (p == "tcp" && t.probe == TCP)
      || (p == "udp" && t.probe == UDP) || (p == "http" && t.probe == HTTP)
    case PortField => text.atoi(s) == Some(t.port)
    case URLField => t.url == s
  }

  /** Which lines a field accepts. */
  predicate Accepts(net: Codec, text: Text, ts: seq<Target>, except: int, f: FormField, s: string) {
    match f
    case NameField => s != "" && forall i :: 0 <= i < |ts| && i != except ==> ts[i].name != s
    case IPField => net.parse(s).Some?
    case WeightField => text.atoi(s).Some? && text.atoi(s).value >= 0
    case ProbeField => text.lower(s) in {"ping", "tcp", "udp", "http"}
    case PortField => text.atoi(s).Some? && 1 <= text.atoi(s).value <= 65535
    case URLField => "http://" <= s || "https://" <= s
  }

  /** A line, without the blanks around it, is accepted as its field allows; it then
      gives the field its value and leaves the others alone, except that a probe
      which uses no port or no URL wipes it. */
  lemma AcceptedField(net: Codec, text: Text, ts: seq<Target>, except: int, t: Target, f: FormField, input: string)
    ensures var s, r := TrimSpace(input), ApplyField(net, text, ts, except, t, f, input);
            && (r.Some? <==> Accepts(net, text, ts, except, f, s))
            && (r.Some? ==>
                  var t' := r.value;
                  && Holds(text, t', f, s)
                  && (f != NameField ==> t'.name == t.name)
                  && (f != IPField ==> t'.ip == t.ip)
                  && (f != WeightField ==> t'.weight == t.weight)
                  && (f != ProbeField ==> t'.probe == t.probe)
                  && (f != PortField ==> t'.port == if f == ProbeField && t'.probe in {Ping, HTTP} then 0 else t.port)
                  && (f != URLField ==> t'.url == if f == ProbeField && t'.probe in {Ping, TCP, UDP} then "" else t.url))
  {
    hide TrimSpace;
    var s := TrimSpace(input);
    assert Prefixed(s, "http://") <==> "http://" <= s;
    assert Prefixed(s, "https://") <==> "https://" <= s;
  }

  /** Which lines row `k` of the global fields accepts, from probe_interval to final_ip. */
  predicate RowAccepts(net: Codec, text: Text, k: nat, s: string) {
    if k == 0 || k == 1 then text.parseDuration(s).Some?
    else if k == 2 then s != ""
    else if k == 3 then text.atoi(s).Some? && text.atoi(s).value >= 1
    else net.parse(s).Some?
  }

  /** Row `k` got the value of the line, and nothing else is new. */
  predicate RowEdited(text: Text, c: Config, k: nat, s: string, c': Config) {
    && (if k == 0 then text.parseDuration(s) == Some(c'.probeInterval) else c'.probeInterval == c.probeInterval)
    && (if k == 1 then text.parseDuration(s) == Some(c'.probeTimeout) else c'.probeTimeout == c.probeTimeout)
    && c'.egressDevice == (if k == 2 then s else c.egressDevice)
    && (if k == 3 then text.atoi(s) == Some(c'.stableRounds) else c'.stableRounds == c.stableRounds)
    && c'.finalIP == (if k == 4 then s else c.finalIP)
    && c'.targets == c.targets
  }

  lemma AcceptedGlobal(net: Codec, text: Text, c: Config, k: nat, input: string)
    requires k < |GLOBAL_FIELDS|
    ensures |GLOBAL_FIELDS| == 5
    ensures var s, r := TrimSpace(input), ApplyGlobal(net, text, c, GLOBAL_FIELDS[k], input);
            && (r.Some? <==> RowAccepts(net, text, k, s))
            && (r.Some? ==> RowEdited(text, c, k, s, r.value))
  {
    hide TrimSpace;
  }

  /** What the library promises about its conversions, as far as it is needed. */
  ghost predicate TextLawful(text: Text) {
    && (forall n :: text.atoi(TrimSpace(text.itoa(n))) == Some(n))
    && text.atoi("") == None
    && (forall d :: text.parseDuration(TrimSpace(text.showDuration(d))) == Some(d))
    && (forall p: ProbeMethod :: !p.Other? ==> text.lower(ProbeText(p)) == ProbeText(p))
  }

  /** The field holds what entering its own text again would give. */
  predicate Reenterable(net: Codec, ts: seq<Target>, except: int, t: Target, f: FormField) {
    match f
    case NameField => t.name != "" && TrimSpace(t.name) == t.name && !NameTaken(ts, except, t.name)
    case IPField => TrimSpace(t.ip) == t.ip && net.Legal(t.ip)
    case WeightField => t.weight >= 0
    case ProbeField => !t.probe.Other? && SwitchProbe(t, t.probe) == t
    case PortField => 1 <= t.port <= 65535
    case URLField => TrimSpace(t.url) == t.url && (Prefixed(t.url, "http://") || Prefixed(t.url, "https://"))
  }

  lemma TrimSpaceIdle(s: string)
    requires s != "" && !IsSpace(s[0]) && !IsSpace(s[|s| - 1])
    ensures TrimSpace(s) == s
  {
  }

  /** An empty line stands for the current text. It keeps the form as it is exactly
      for a field that can be entered again as it stands: not for a padded name,
      the missing address of an http target, or the probe of a target that still
      carries a port or URL its probe does not use. */
  lemma EmptyLineKeeps(net: Codec, text: Text, ts: seq<Target>, except: int, t: Target, f: FormField)
    requires TextLawful(text)
    ensures ApplyField(net, text, ts, except, t, f, ShowField(text, t, f)) == Some(t) <==> Reenterable(net, ts, except, t, f)
  {
    if f.ProbeField? && !t.probe.Other? {
      TrimSpaceIdle(ProbeText(t.probe));
    }
    hide TrimSpace, NameTaken, Prefixed;
  }

  /** The global field holds what entering its own text again would give. */
  predicate GlobalReenterable(net: Codec, c: Config, f: GlobalField) {
    match f
    case EgressDevice => c.egressDevice != "" && TrimSpace(c.egressDevice) == c.egressDevice
    case StableRounds => c.stableRounds >= 1
    case FinalIP => TrimSpace(c.finalIP) == c.finalIP && net.Legal(c.finalIP)
    case _ => true
  }

  /** The same for a global field: in a well-formed configuration an empty line loses
      the blanks around the egress device or the fallback's address, if it has any. */
  lemma EmptyGlobalLineKeeps(net: Codec, text: Text, c: Config, f: GlobalField)
    requires TextLawful(text)
    ensures ApplyGlobal(net, text, c, f, ShowGlobal(text, c, f)) == Some(c) <==> GlobalReenterable(net, c, f)
  {
  }

  /** The text a form shows for a field is the field's value, read back; a missing port
      is shown as nothing. */
  lemma ShownField(text: Text, t: Target, f: FormField)
    requires TextLawful(text)
    ensures var shown := ShowField(text, t, f);
            match f
            case WeightField => text.atoi(TrimSpace(shown)) == Some(t.weight)
            case PortField => if t.port == 0 then shown == "" else text.atoi(TrimSpace(shown)) == Some(t.port)
            case ProbeField =>
              (t.probe == Ping ==> shown == "ping") && (t.probe == TCP ==> shown == "tcp")
              && (t.probe == UDP ==> shown == "udp") && (t.probe == HTTP ==> shown == "http")
            case NameField => shown == t.name
            case IPField => shown == t.ip
            case URLField => shown == t.url
  {
    hide TrimSpace;
  }

  // ---------- filling a form ----------

  /** A line handed to a field of the form. */
  datatype Entry = Entry(field: FormField, line: string)

  /** The form's target after some lines. A rejected line changes nothing. */
  function Entered(net: Codec, text: Text, ts: seq<Target>, except: int, t0: Target, es: seq<Entry>): Target {
    if es == [] then t0
    else
      var e, t := es[|es| - 1], Entered(net, text, ts, except, t0, es[..|es| - 1]);
      match ApplyField(net, text, ts, except, t, e.field, e.line)
      case Some(t') => t'
      case None => t
  }

  lemma EnteredNext(net: Codec, text: Text, ts: seq<Target>, except: int, t0: Target, es: seq<Entry>, e: Entry)
    ensures var t := Entered(net, text, ts, except, t0, es);
            && Entered(net, text, ts, except, t0, es + [e]) ==
                 (match ApplyField(net, text, ts, except, t, e.field, e.line) case Some(t') => t' case None => t)
            && (ToShown(net, text, ts, except, t0, es) && e.field in FormFields(t.probe) ==>
                  ToShown(net, text, ts, except, t0, es + [e]))
  {
    hide ApplyField, FormFields;
    assert (es + [e])[..|es|] == es;
  }

  /** Every line went to a field that the form was showing. */
  predicate ToShown(net: Codec, text: Text, ts: seq<Target>, except: int, t0: Target, es: seq<Entry>) {
    es == []
    || (var e, before := es[|es| - 1], es[..|es| - 1];
        && ToShown(net, text, ts, except, t0, before)
        && e.field in FormFields(Entered(net, text, ts, except, t0, before).probe))
  }

  /** The field alone is as a valid target needs it. */
  predicate FieldFine(net: Codec, ts: seq<Target>, except: int, t: Target, f: FormField) {
    match f
    case NameField => !Blank(t.name) && !NameTaken(ts, except, t.name)
    case IPField => t.ip != "" && net.Legal(t.ip)
    case WeightField => t.weight >= 0
    case ProbeField => !t.probe.Other?
    case PortField => 1 <= t.port <= 65535
    case URLField => t.url != ""
  }

  /** Choosing the probe `p` does not wipe the field. */
  predicate Survives(f: FormField, p: ProbeMethod) {
    match f
    case PortField => p.TCP? || p.UDP?
    case URLField => p.HTTP?
    case _ => true
  }

  /** The field was fine from the start or a line for it was accepted, and no probe
      accepted since has wiped it. */
  predicate Given(net: Codec, text: Text, ts: seq<Target>, except: int, t0: Target, es: seq<Entry>, f: FormField) {
    if es == [] then FieldFine(net, ts, except, t0, f)
    else
      var e, before := es[|es| - 1], es[..|es| - 1];
      match ApplyField(net, text, ts, except, Entered(net, text, ts, except, t0, before), e.field, e.line)
      case None => Given(net, text, ts, except, t0, before, f)
      case Some(t') =>
        e.field == f
        || (Given(net, text, ts, except, t0, before, f) && (e.field == ProbeField ==> Survives(f, t'.probe)))
  }

  lemma ApplyFieldFine(net: Codec, text: Text, ts: seq<Target>, except: int, t: Target, e: Entry, f: FormField)
    requires !net.Legal("")
    ensures match ApplyField(net, text, ts, except, t, e.field, e.line)
            case None => true
            case Some(t') =>
              FieldFine(net, ts, except, t', f) <==>
                e.field == f || (FieldFine(net, ts, except, t, f) && (e.field == ProbeField ==> Survives(f, t'.probe)))
  {
  }

  /** The history of a field decides whether it is fine now. */
  lemma {:induction false} GivenIsFine(net: Codec, text: Text, ts: seq<Target>, except: int, t0: Target, es: seq<Entry>, f: FormField)
    requires !net.Legal("")
    ensures Given(net, text, ts, except, t0, es, f) <==>
              FieldFine(net, ts, except, Entered(net, text, ts, except, t0, es), f)
  {
    hide ApplyField, FieldFine, Survives;
    if es != [] {
      var e, before := es[|es| - 1], es[..|es| - 1];
      GivenIsFine(net, text, ts, except, t0, before, f);
      ApplyFieldFine(net, text, ts, except, Entered(net, text, ts, except, t0, before), e, f);
    }
  }

  /** A valid target with this probe needs the field. An http target needs no
      address, though its form shows one. */
  predicate Needs(p: ProbeMethod, f: FormField) {
    match f
    case IPField => p.Ping? || p.TCP? || p.UDP?
    case PortField => p.TCP? || p.UDP?
    case URLField => p.HTTP?
    case _ => true
  }

  /** Over any lines, in any order, rejected ones included, from any start: the form
      holds a valid target under a free name if and only if every field its probe
      needs has been given. */
  lemma FormIsValidIffGiven(net: Codec, text: Text, ts: seq<Target>, except: int, t0: Target, es: seq<Entry>)
    requires !net.Legal("")
    ensures var t := Entered(net, text, ts, except, t0, es);
            TargetOK(net, t) && !NameTaken(ts, except, t.name) <==>
              forall f :: Needs(t.probe, f) ==> Given(net, text, ts, except, t0, es, f)
  {
    var t := Entered(net, text, ts, except, t0, es);
    hide Entered, Given;
    forall f: FormField
      ensures Given(net, text, ts, except, t0, es, f) <==> FieldFine(net, ts, except, t, f)
    {
      GivenIsFine(net, text, ts, except, t0, es, f);
    }
    FineIsValid(net, ts, except, t);
  }

  lemma FineIsValid(net: Codec, ts: seq<Target>, except: int, t: Target)
    ensures TargetOK(net, t) && !NameTaken(ts, except, t.name) <==>
              forall f :: Needs(t.probe, f) ==> FieldFine(net, ts, except, t, f)
  {
    assert Needs(t.probe, NameField) && Needs(t.probe, WeightField) && Needs(t.probe, ProbeField);
    assert Needs(t.probe, IPField) <==> NeedsAddress(t);
    assert Needs(t.probe, PortField) <==> t.probe.TCP? || t.probe.UDP?;
    assert Needs(t.probe, URLField) <==> t.probe.HTTP?;
  }

  /** No port or URL that the probe does not use. */
  predicate Clean(t: Target) {
    (!(t.probe.TCP? || t.probe.UDP?) ==> t.port == 0) && (!t.probe.HTTP? ==> t.url == "")
  }

  lemma ApplyFieldClean(net: Codec, text: Text, ts: seq<Target>, except: int, t: Target, e: Entry)
    requires Clean(t) && e.field in FormFields(t.probe)
    ensures match ApplyField(net, text, ts, except, t, e.field, e.line) case None => true case Some(t') => Clean(t')
  {
  }

  /** A form that starts clean stays so. */
  lemma {:induction false} FormStaysClean(net: Codec, text: Text, ts: seq<Target>, except: int, t0: Target, es: seq<Entry>)
    requires Clean(t0) && ToShown(net, text, ts, except, t0, es)
    ensures Clean(Entered(net, text, ts, except, t0, es))
  {
    hide ApplyField, Clean, FormFields;
    if es != [] {
      FormStaysClean(net, text, ts, except, t0, es[..|es| - 1]);
      ApplyFieldClean(net, text, ts, except, Entered(net, text, ts, except, t0, es[..|es| - 1]), es[|es| - 1]);
    }
  }

  // ---------- target lists ----------

  /** Distinct names, each target valid on its own. The list may be empty. */
  predicate TargetsGood(net: Codec, ts: seq<Target>) {
    DistinctNames(ts) && forall i :: 0 <= i < |ts| ==> TargetOK(net, ts[i])
  }

  function RemoveAt(ts: seq<Target>, i: nat): seq<Target>
    requires i < |ts|
  {
    ts[..i] + ts[i + 1..]
  }

  /** `after` is `before` without entry `i`: those ahead of it stay where they are,
      those behind it move down by one. */
  predicate Dropped(before: seq<Target>, i: nat, after: seq<Target>) {
    && i < |before| == |after| + 1
    && (forall j :: 0 <= j < i ==> after[j] == before[j])
    && (forall j :: i <= j < |after| ==> after[j] == before[j + 1])
  }

  /** `after` is `before` with `t` added at its end, or put in place of entry `at`. */
  predicate Placed(before: seq<Target>, at: int, t: Target, after: seq<Target>) {
    if at < 0 then
      && |after| == |before| + 1 && after[|before|] == t
      && forall j :: 0 <= j < |before| ==> after[j] == before[j]
    else
      && at < |before| == |after| && after[at] == t
      && forall j :: 0 <= j < |before| && j != at ==> after[j] == before[j]
  }

  /** The list with the form's target written back: appended, or in its place. */
  function Committed(ts: seq<Target>, at: int, t: Target): seq<Target>
    requires at < |ts|
  {
    if at < 0 then ts + [t] else ts[at := t]
  }

  lemma RemoveKeepsGood(net: Codec, ts: seq<Target>, i: nat)
    requires i < |ts| && TargetsGood(net, ts)
    ensures TargetsGood(net, RemoveAt(ts, i)) && Dropped(ts, i, RemoveAt(ts, i))
  {
  }

  lemma NamelessIsInvalid(net: Codec, t: Target)
    requires t.name == ""
    ensures !TargetOK(net, t)
  {
  }

  lemma WellFormedTargets(net: Codec, c: Config)
    requires WellFormed(net, c)
    ensures TargetsGood(net, c.targets)
  {
  }

  /** Writing a target back gives a well-formed configuration exactly if the other
      fields are in order, the target is valid and its name is free. */
  lemma CommitIff(net: Codec, c: Config, at: int, t: Target)
    requires -1 <= at < |c.targets| && TargetsGood(net, c.targets)
    ensures WellFormed(net, c.(targets := Committed(c.targets, at, t))) <==>
              GlobalsOK(net, c) && TargetOK(net, t) && !NameTaken(c.targets, at, t.name)
    ensures Placed(c.targets, at, t, Committed(c.targets, at, t))
  {
    hide TargetOK;
    var ts := Committed(c.targets, at, t);
    var k := if at < 0 then |c.targets| else at;
    assert ts[k] == t && forall i :: 0 <= i < |ts| && i != k ==> i < |c.targets| && i != at && ts[i] == c.targets[i];
    if NameTaken(c.targets, at, t.name) {
      var i :| 0 <= i < |c.targets| && i != at && c.targets[i].name == t.name;
      assert !DistinctNames(ts) by {
        assert if i < k then ts[i].name == ts[k].name else ts[k].name == ts[i].name;
      }
    } else {
      assert forall i :: 0 <= i < |ts| && i != k ==> ts[i].name != ts[k].name;
      assert DistinctNames(ts);
    }
    if TargetOK(net, t) {
      assert forall i :: 0 <= i < |ts| ==> TargetOK(net, ts[i]);
    }
  }
}
