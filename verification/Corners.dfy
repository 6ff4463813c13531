/** Concrete situations in which a tempting stronger claim fails. */
module Corners {
  import opened Prelude
  import opened Addresses
  import opened Configuration
  import opened Debounce
  import opened Machine
  import opened Safety
  import opened Routing
  import opened Reporting
  import opened Rounds
  import opened Stabilisation
  import Churn
  import Ordering
  import Selection

  // ---------- an address text that is legal but not canonical ----------

  predicate Packed(s: string) {
    |s| == 3 && s[0] as int < 1024 && s[1] as int < 2048 && s[2] as int < 2048
  }

  function Unpack(s: string): (a: IPv4)
    requires Packed(s)
  {
    ((s[0] as int * 2048 + s[1] as int) * 2048 + s[2] as int) as IPv4
  }

  function Pack(a: IPv4): string {
    var n := a as int;
    [(n / 2048 / 2048) as char, (n / 2048 % 2048) as char, (n % 2048) as char]
  }

  /** A small address notation with, like the real one, a second form ('m' in
      front) for every address. */
  const TOY := Codec(
    (s: string) =>
      if Packed(s) then Some(Unpack(s))
      else if |s| == 4 && s[0] == 'm' && Packed(s[1..]) then Some(Unpack(s[1..]))
      else None,
    (a: IPv4) => Pack(a))

  lemma PackUnpack(a: IPv4)
    ensures Packed(Pack(a)) && Unpack(Pack(a)) == a
  {
  }

  lemma ToyIsLawful()
    ensures TOY.Lawful()
  {
    forall a: IPv4
      ensures TOY.parse(TOY.render(a)) == Some(a)
    {
      PackUnpack(a);
    }
  }

  /** Every address has a legal text that is not canonical. */
  lemma ToySecondForm(a: IPv4)
    ensures TOY.Canonical(Pack(a)) && TOY.Legal("m" + Pack(a)) && !TOY.Canonical("m" + Pack(a))
  {
    PackUnpack(a);
    assert ("m" + Pack(a))[1..] == Pack(a);
  }

  /** A valid configuration whose fallback is written in that form, and no target
      reachable: whatever fails and whoever edits the route, `k` rounds make `k`
      calls. */
  lemma SecondFormRun(g: Option<IPv4>, rs: seq<Round>, k: nat)
    requires var c := OneTarget("a", Pack(1), "m" + Pack(2));
             k <= |rs| && Fits(c, rs) && Steady(c, rs, {})
    ensures var c := OneTarget("a", Pack(1), "m" + Pack(2));
            && WellFormed(TOY, c) && New(TOY, c, g).Some? && New(TOY, c, g).value.cfg == c
            && |At(TOY, New(TOY, c, g).value, rs, k).attempts| == k
  {
    var c := OneTarget("a", Pack(1), "m" + Pack(2));
    ToyConfigIsGood("a", 1, "m" + Pack(2), 2);
    NewKeepsInv(TOY, c, g);
    var s := New(TOY, c, g).value;
    ToyIsLawful();
    ToySecondForm(2);
    hide Inv, WellFormed, Pack, At;
    forall j: nat | 1 <= j <= k
      ensures Wanted(At(TOY, s, rs, j)) == "m" + Pack(2)
    {
      SteadyWanted(TOY, s, rs, {}, j);
      Selection.DesiredIsBest(c, {});
    }
    Churn.SecondFormNeverSettles(TOY, s, rs, k);
  }

  // ---------- a result that outlives its target ----------

  /** A target dropped by one reload and restored by the next, both during one
      round, starts afresh and then takes that round's result all the same. */
  lemma StaleResultArrives(net: Codec, w: World, c1: Config, io1: Io, c2: Config, io2: Io, io: Io, i: nat)
    requires WorldInv(net, w) && w.flight.Some? && Complete(w.flight.value)
    requires i < |w.flight.value.targets|
    requires WellFormed(net, c1) && w.flight.value.targets[i].name !in Names(c1.targets)
    requires WellFormed(net, c2) && w.flight.value.targets[i].name in Names(c2.targets)
    ensures var f, n := w.flight.value, w.flight.value.targets[i].name;
            var w' := Exec(net, w, [ReloadRequest(c1, io1), ReloadRequest(c2, io2), Apply(io)]);
            && n in w'.sys.states
            && w'.sys.states[n].log == [Sample(f.results[i].value, c2.stableRounds)]
  {
    hide Inv, Reload, ApplyResults, WellFormed;
    var n := w.flight.value.targets[i].name;
    var e1, e2, e3 := ReloadRequest(c1, io1), ReloadRequest(c2, io2), Apply(io);
    var w1 := Next(net, w, e1);
    var w2 := Next(net, w1, e2);
    NextKeepsInv(net, w, e1);
    NextKeepsInv(net, w1, e2);
    ReloadFrame(net, w.sys, c1, io1, n);
    ReloadFrame(net, w1.sys, c2, io2, n);
    ReloadTakes(net, w1.sys, c2, io2);
    ApplyReachesSnapshot(net, w2, io, n);
    ExecThree(net, w, e1, e2, e3);
  }

  lemma ReloadTakes(net: Codec, s: Sys, c: Config, io: Io)
    requires WellFormed(net, c)
    ensures Reload(net, s, c, io).cfg == c
  {
  }

  lemma ExecThree(net: Codec, w: World, a: Event, b: Event, c: Event)
    ensures Exec(net, w, [a, b, c]) == Next(net, Next(net, Next(net, w, a), b), c)
  {
    hide Next, Exec;
    assert [a, b, c] == [] + [a] + [b] + [c];
    Ordering.ExecLast(net, w, [] + [a] + [b], c);
    Ordering.ExecLast(net, w, [] + [a], b);
    Ordering.ExecLast(net, w, [], a);
    assert Exec(net, w, []) == w by {
      ExecNothing(net, w);
    }
  }

  // ---------- a fallback flag that is wrong ----------

  function OneTarget(name: string, ip: string, finalIP: string): Config {
    Config(1_000_000_000, 100_000_000, "eth0", 1, finalIP, [Target(name, ip, 1, Ping, 0, "")])
  }

  /** An http target without an address, as Validate accepts it. */
  function OnePage(name: string, finalIP: string): Config {
    Config(1_000_000_000, 100_000_000, "eth0", 1, finalIP, [Target(name, "", 1, HTTP, 0, "http://a/")])
  }

  const GOOD := Io(false, false, None)

  lemma SmallConfigsAreGood(net: Codec, name: string, ip: string, finalIP: string)
    requires name != "" && !IsSpace(name[0])
    requires ip != "" && net.Legal(ip) && finalIP != "" && net.Legal(finalIP)
    ensures WellFormed(net, OneTarget(name, ip, finalIP)) && WellFormed(net, OnePage(name, finalIP))
  {
    assert !IsSpace("eth0"[0]);
  }

  lemma ToyConfigIsGood(name: string, ip: IPv4, finalText: string, finalIP: IPv4)
    requires name == "a" || name == "b"
    requires finalText == Pack(finalIP) || finalText == "m" + Pack(finalIP)
    ensures WellFormed(TOY, OneTarget(name, Pack(ip), finalText)) && WellFormed(TOY, OnePage(name, finalText))
    ensures TOY.parse(Pack(finalIP)) == Some(finalIP) && !TOY.Legal("")
  {
    ToySecondForm(ip);
    ToySecondForm(finalIP);
    PackUnpack(finalIP);
    assert Pack(ip) != "" && finalText != "";
    hide WellFormed, Pack;
    SmallConfigsAreGood(TOY, name, Pack(ip), finalText);
  }

  lemma ToyTextsCanonical(name: string, ip: IPv4, finalIP: IPv4)
    ensures TextsCanonical(TOY, OneTarget(name, Pack(ip), Pack(finalIP)))
  {
    ToySecondForm(ip);
    ToySecondForm(finalIP);
  }

  lemma PackInjective(a: IPv4, b: IPv4)
    requires a != b
    ensures Pack(a) != Pack(b)
  {
    PackUnpack(a);
    PackUnpack(b);
  }

  /** With one target and StableRounds 1 the wanted gateway follows each result. */
  lemma OneFollows(net: Codec, s: Sys, ok: bool, io: Io)
    requires Inv(net, s) && |s.cfg.targets| == 1 && s.cfg.stableRounds == 1
    ensures var s' := ApplyResults(net, s, s.cfg.targets, [ok], io);
            && Inv(net, s') && s'.cfg == s.cfg && s'.states.Keys == {s.cfg.targets[0].name}
            && (AllDown(s') <==> !ok)
            && Wanted(s') == if ok then s.cfg.targets[0].ip else s.cfg.finalIP
  {
    ApplyKeepsInv(net, s, s.cfg.targets, [ok], io);
    ApplyStates(net, s, s.cfg.targets, [ok], io);
    OneTable(net, s);
    AbsorbPresent(s.states, s.cfg.targets, [ok], 1, 1, 0);
    hide Inv;
    var s' := ApplyResults(net, s, s.cfg.targets, [ok], io);
    assert s.cfg.targets[0].name in Live(s'.states) <==> ok;
    Selection.DesiredIsBest(s.cfg, Live(s'.states));
  }

  lemma OneTable(net: Codec, s: Sys)
    requires Inv(net, s) && |s.cfg.targets| == 1
    ensures s.states.Keys == {s.cfg.targets[0].name}
  {
  }

  lemma OneName(ts: seq<Target>)
    requires |ts| == 1
    ensures Names(ts) == {ts[0].name}
  {
    assert ts[0].name in Names(ts);
  }

  function OneRound(ok: bool): seq<Event> {
    [Snapshot, ProbeDone(0, ok), Apply(GOOD)]
  }

  lemma OneRoundApplies(net: Codec, s: Sys, ok: bool)
    requires |s.cfg.targets| == 1
    ensures Exec(net, World(s, None), OneRound(ok))
              == World(ApplyResults(net, s, s.cfg.targets, [ok], GOOD), None)
  {
    hide ApplyResults, Exec;
    assert OneRound(ok) == Ordering.RoundEvents([0], [ok], GOOD);
    assert 0 in [0];
    Ordering.CompletionOrderIrrelevant(net, s, [0], [ok], GOOD);
  }

  /** "a" at address 1 comes up over an empty kernel and gets the route. */
  lemma FirstUp(c: Config)
    requires c == OneTarget("a", Pack(1), Pack(2))
    ensures New(TOY, c, None).Some?
    ensures var w := Reached(TOY, c, None, OneRound(true));
            && Inv(TOY, w.sys) && Synced(TOY, w.sys) && w.sys.cfg == c
            && Wanted(w.sys) == Pack(1) && !w.sys.finalActive && w.sys.states.Keys == {"a"}
  {
    ToyConfigIsGood("a", 1, Pack(2), 2);
    ToyTextsCanonical("a", 1, 2);
    PackInjective(1, 2);
    ToySecondForm(1);
    NewKeepsInv(TOY, c, None);
    var s := New(TOY, c, None).value;
    var s' := ApplyResults(TOY, s, c.targets, [true], GOOD);
    hide WellFormed, TextsCanonical, Inv, Pack, ApplyResults;
    OneRoundApplies(TOY, s, true);
    OneFollows(TOY, s, true, GOOD);
    ApplyHonest(TOY, None, s, c.targets, [true], GOOD);
    FlagAfterApply(TOY, s, c.targets, [true], GOOD);
    assert Decided(TOY, s, s') && Honest(TOY, None, s');
  }

  /** From a state like that, one reload. */
  lemma StaleReload(net: Codec, before: Config, es: seq<Event>, after: Config)
    requires New(net, before, None).Some? && net.Lawful()
    requires var s := Reached(net, before, None, es).sys;
             && Inv(net, s) && Synced(net, s) && !s.finalActive
             && WellFormed(net, after) && after.finalIP == Wanted(s) && Names(after.targets) !! s.states.Keys
    ensures var s := Reached(net, before, None, es + [ReloadRequest(after, GOOD)]).sys;
            AllDown(s) && s.kernelGateway == net.parse(after.finalIP) && s.cfg == after && !s.finalActive
  {
    hide Inv, Synced, Reload, AllDown, Wanted, New;
    var w := Reached(net, before, None, es);
    FlagGoesStale(net, w.sys, after, GOOD);
    ReloadDichotomy(net, w.sys, after, GOOD);
    Ordering.ExecLast(net, World(New(net, before, None).value, None), es, ReloadRequest(after, GOOD));
  }

  /** The next configuration has "b" only, and address 1 for its fallback. No target
      is up, the fallback's address is routed, and the flag says it is not in use. */
  lemma FlagIsStale()
    ensures var before, after := OneTarget("a", Pack(1), Pack(2)), OneTarget("b", Pack(3), Pack(1));
            && New(TOY, before, None).Some?
            && var s := Reached(TOY, before, None, OneRound(true) + [ReloadRequest(after, GOOD)]).sys;
               AllDown(s) && s.kernelGateway == Some(1) && s.cfg.finalIP == Pack(1) && !s.finalActive
  {
    hide TOY, Pack, WellFormed, Inv, Synced, AllDown, Wanted, New, Reached;
    var before, after := OneTarget("a", Pack(1), Pack(2)), OneTarget("b", Pack(3), Pack(1));
    ToyConfigIsGood("b", 3, Pack(1), 1);
    ToyIsLawful();
    FirstUp(before);
    OneName(after.targets);
    assert "a"[0] != "b"[0];
    StaleReload(TOY, before, OneRound(true), after);
  }

  /** Nobody is up, the fallback is routed, and nothing was called for. */
  predicate RestingOnFallback(net: Codec, s: Sys, a: IPv4) {
    && Live(s.states) == {} && s.kernelGateway == Some(a) && net.render(a) == s.cfg.finalIP
    && s.attempts == [] && s.currentNexthop == "" && !s.finalActive
  }

  lemma RestingRound(net: Codec, s: Sys, a: IPv4, r: Round)
    requires |r.oks| == |s.cfg.targets| && DistinctNames(s.cfg.targets) && RestingOnFallback(net, s, a)
    requires (forall i :: 0 <= i < |r.oks| ==> !r.oks[i]) && r.edit.None? && Works(r.io)
    ensures RestingOnFallback(net, Step(net, s, r), a)
  {
    NobodyTurnsOver(s, r.oks);
    hide AbsorbAll, DistinctNames;
    Selection.DesiredIsBest(s.cfg, {});
    QuietRound(net, s, s.cfg.targets, r.oks, r.io);
    UnchangedKeepsUp(s.states, s.cfg.targets, r.oks, s.cfg.stableRounds, |s.cfg.targets|);
  }

  lemma {:induction false} RestingRun(net: Codec, s: Sys, a: IPv4, rs: seq<Round>, k: nat)
    requires DistinctNames(s.cfg.targets) && RestingOnFallback(net, s, a)
    requires k <= |rs| && Fits(s.cfg, rs) && Steady(s.cfg, rs, {})
    requires forall j :: 0 <= j < k ==> rs[j].edit.None? && Works(rs[j].io)
    ensures RestingOnFallback(net, At(net, s, rs, k), a)
  {
    hide DistinctNames, Step, RestingOnFallback;
    if k > 0 {
      RestingRun(net, s, a, rs, k - 1);
      var oks := rs[k - 1].oks;
      assert forall i :: 0 <= i < |oks| ==> oks[i] == (s.cfg.targets[i].name in {});
      RestingRound(net, At(net, s, rs, k - 1), a, rs[k - 1]);
    }
  }

  /** Every restart of that kind, for as long as it lasts: over a kernel already on
      the fallback, rounds that find nobody call for nothing and report nothing. */
  lemma RestartOnFallback(net: Codec, c: Config, a: IPv4, rs: seq<Round>, k: nat)
    requires WellFormed(net, c) && net.render(a) == c.finalIP
    requires k <= |rs| && Fits(c, rs) && Steady(c, rs, {})
    requires forall j :: 0 <= j < k ==> rs[j].edit.None? && Works(rs[j].io)
    ensures New(net, c, Some(a)).Some? && New(net, c, Some(a)).value.cfg == c
    ensures RestingOnFallback(net, At(net, New(net, c, Some(a)).value, rs, k), a)
  {
    StartsResting(net, c, a);
    hide New, WellFormed, At, RestingOnFallback;
    RestingRun(net, New(net, c, Some(a)).value, a, rs, k);
  }

  lemma StartsResting(net: Codec, c: Config, a: IPv4)
    requires WellFormed(net, c) && net.render(a) == c.finalIP
    ensures New(net, c, Some(a)).Some? && New(net, c, Some(a)).value.cfg == c && DistinctNames(c.targets)
    ensures RestingOnFallback(net, New(net, c, Some(a)).value, a)
  {
    NewKeepsInv(net, c, Some(a));
    var s := New(net, c, Some(a)).value;
    hide Inv, New;
    assert Live(s.states) == {};
  }

  lemma NobodyTurnsOver(s: Sys, oks: seq<bool>)
    requires |oks| == |s.cfg.targets| && Live(s.states) == {} && DistinctNames(s.cfg.targets)
    requires forall i :: 0 <= i < |oks| ==> !oks[i]
    ensures !AbsorbAll(s.states, s.cfg.targets, oks, s.cfg.stableRounds).changed
  {
    AbsorbFlags(s.states, s.cfg.targets, oks, s.cfg.stableRounds, |s.cfg.targets|);
    forall i: nat | i < |oks|
      ensures !TurnsOver(s.states, s.cfg.targets, oks, s.cfg.stableRounds, i)
    {
      var n := s.cfg.targets[i].name;
      assert n in s.states ==> n !in Live(s.states);
    }
  }

  lemma RestartRound(net: Codec, c: Config, a: IPv4)
    requires WellFormed(net, c) && |c.targets| == 1 && net.render(a) == c.finalIP
    ensures New(net, c, Some(a)).Some?
    ensures var s := Reached(net, c, Some(a), OneRound(false)).sys;
            RestingOnFallback(net, s, a) && s.cfg == c && AllDown(s) && Wanted(s) == c.finalIP
  {
    StartsResting(net, c, a);
    var s := New(net, c, Some(a)).value;
    hide WellFormed, New, ApplyResults, Exec, OneRound, DistinctNames;
    OneRoundApplies(net, s, false);
    RestingRound(net, s, a, Round([false], None, GOOD));
    Selection.DesiredIsBest(c, {});
  }

  /** A restart. The daemon leaves its route behind, so it may start over a kernel
      that is on the fallback already; while no target answers nothing has to be
      installed, and the flag says the fallback is not in use. Nor is a gateway
      reported. */
  lemma FlagAfterRestart()
    ensures var c := OneTarget("a", Pack(1), Pack(2));
            && WellFormed(TOY, c) && FinalApart(c) && New(TOY, c, Some(2)).Some?
            && var s := Reached(TOY, c, Some(2), OneRound(false)).sys;
               && AllDown(s) && s.kernelGateway == Some(2) && Wanted(s) == c.finalIP == Pack(2)
               && !s.finalActive && s.currentNexthop == ""
  {
    var c := OneTarget("a", Pack(1), Pack(2));
    ToyConfigIsGood("a", 1, Pack(2), 2);
    PackInjective(1, 2);
    assert FinalApart(c) && TOY.render(2) == Pack(2);
    hide TOY, Pack;
    RestartRound(TOY, c, 2);
  }

  /** Two rounds of a single target without an address, over an empty kernel: down,
      then up. */
  lemma PageComesUp(net: Codec, s: Sys)
    requires Inv(net, s) && |s.cfg.targets| == 1 && s.cfg.stableRounds == 1
    requires !net.Legal(s.cfg.targets[0].ip) && s.kernelGateway.None?
    ensures var s1 := ApplyResults(net, s, s.cfg.targets, [false], GOOD);
            var s2 := ApplyResults(net, s1, s.cfg.targets, [true], GOOD);
            s1.cfg == s.cfg && !AllDown(s2) && s2.finalActive
  {
    var s1 := ApplyResults(net, s, s.cfg.targets, [false], GOOD);
    OneFollows(net, s, false, GOOD);
    OneFollows(net, s1, true, GOOD);
    assert net.Legal(s.cfg.finalIP);
    hide Inv, AbsorbAll, ApplyResults, Wanted, AllDown;
    FlagAfterApply(net, s, s.cfg.targets, [false], GOOD);
    FlagAfterApply(net, s1, s.cfg.targets, [true], GOOD);
    PageUpKeepsFlag(net, s1);
  }

  lemma PageUpKeepsFlag(net: Codec, s: Sys)
    requires |s.cfg.targets| == 1
    requires !net.Legal(Wanted(ApplyResults(net, s, s.cfg.targets, [true], GOOD)))
    ensures ApplyResults(net, s, s.cfg.targets, [true], GOOD).finalActive == s.finalActive
  {
  }

  /** An http target that has no address comes up after the fallback was installed:
      there is nothing to route, and the flag goes on saying that all are down. */
  lemma FlagAfterPageUp()
    ensures var c := OnePage("a", Pack(2));
            && WellFormed(TOY, c) && FinalApart(c) && New(TOY, c, None).Some?
            && var s := Reached(TOY, c, None, OneRound(false) + OneRound(true)).sys;
               !AllDown(s) && s.finalActive
  {
    var c := OnePage("a", Pack(2));
    ToyConfigIsGood("a", 1, Pack(2), 2);
    NewKeepsInv(TOY, c, None);
    assert FinalApart(c);
    var s := New(TOY, c, None).value;
    hide TOY, ApplyResults, Inv, WellFormed, Pack, AllDown, New, Exec, OneRound;
    PageComesUp(TOY, s);
    OneRoundApplies(TOY, s, false);
    OneRoundApplies(TOY, ApplyResults(TOY, s, c.targets, [false], GOOD), true);
    Ordering.ExecConcat(TOY, World(s, None), OneRound(false), OneRound(true));
  }
}
