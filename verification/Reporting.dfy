/** Whether what the manager reports, the active gateway and the fallback flag, is
    the truth. */
module Reporting {
  import opened Prelude
  import opened Addresses
  import opened Configuration
  import opened Selection
  import opened Machine
  import opened Safety
  import opened Routing

  /** Reported, wanted and actual gateway are the same. */
  predicate Synced(net: Codec, s: Sys) {
    InPlace(net, s) && s.currentNexthop == Wanted(s)
  }

  /** Kernel, report and calls are those of `s`. */
  predicate SameRoute(s: Sys, s': Sys) {
    && s'.kernelGateway == s.kernelGateway && s'.attempts == s.attempts
    && s'.currentNexthop == s.currentNexthop && s'.finalActive == s.finalActive
  }

  /** Started over `g`: nothing was called for yet, nothing is reported and the
      kernel is as found; or what is reported is what is in the kernel. */
  predicate Honest(net: Codec, g: Option<IPv4>, s: Sys) {
    if s.attempts == [] then s.currentNexthop == "" && s.kernelGateway == g
    else s.kernelGateway.Some? && net.render(s.kernelGateway.value) == s.currentNexthop
  }

  /** A step in which all route operations work, every configuration accepted
      writes its legal addresses canonically, and nobody else edits routes. */
  predicate Orderly(net: Codec, e: Event) {
    && Working(e) && !e.RouteEdit?
    && (e.ReloadRequest? && WellFormed(net, e.cfg) ==> TextsCanonical(net, e.cfg))
  }

  predicate AllOrderly(net: Codec, es: seq<Event>) {
    forall k :: 0 <= k < |es| ==> Orderly(net, es[k])
  }

  /** The event makes a routing decision now: an apply of a finished round, or a
      reload of a valid configuration. */
  predicate Decides(net: Codec, w: World, e: Event) {
    match e
    case Apply(_) => w.flight.Some? && Complete(w.flight.value)
    case ReloadRequest(c, _) => WellFormed(net, c)
    case _ => false
  }

  /** After a routing decision taken in state `s`: what is wanted is in place, or
      has no legal address and nothing was touched. */
  predicate Decided(net: Codec, s: Sys, s': Sys) {
    if net.Legal(Wanted(s')) then InPlace(net, s') else SameRoute(s, s')
  }

  lemma ConvergeHonest(net: Codec, g: Option<IPv4>, s: Sys, force: bool, io: Io)
    requires Works(io) && TextsCanonical(net, s.cfg) && Honest(net, g, s)
    ensures var s' := Converge(net, s, force, io);
            Honest(net, g, s') && Decided(net, s, s') && s'.cfg == s.cfg
  {
    if net.Legal(Wanted(s)) {
      WantedIsCanonical(net, s);
    }
  }

  lemma ApplyHonest(net: Codec, g: Option<IPv4>, s: Sys, targets: seq<Target>, oks: seq<bool>, io: Io)
    requires |targets| == |oks| && Works(io) && TextsCanonical(net, s.cfg) && Honest(net, g, s)
    ensures var s' := ApplyResults(net, s, targets, oks, io);
            Honest(net, g, s') && Decided(net, s, s') && s'.cfg == s.cfg
  {
    hide TextsCanonical, AbsorbAll, Converge, InPlace, Wanted;
    var t := AbsorbAll(s.states, targets, oks, s.cfg.stableRounds);
    ConvergeHonest(net, g, Settle(s, t), t.changed, io);
  }

  lemma ReloadHonest(net: Codec, g: Option<IPv4>, s: Sys, c: Config, io: Io)
    requires WellFormed(net, c) && Works(io) && TextsCanonical(net, c) && Honest(net, g, s)
    ensures var s' := Reload(net, s, c, io);
            Honest(net, g, s') && Decided(net, s, s') && s'.cfg == c
  {
    ValidIsBuildable(net, c);
    hide TextsCanonical, WellFormed, Converge, InPlace, Wanted;
    ConvergeHonest(net, g, Adopt(net, s, c), false, io);
  }

  lemma OrderlyNext(net: Codec, g: Option<IPv4>, w: World, e: Event)
    requires TextsCanonical(net, w.sys.cfg) && Honest(net, g, w.sys) && Orderly(net, e)
    ensures var s' := Next(net, w, e).sys;
            && TextsCanonical(net, s'.cfg) && Honest(net, g, s')
            && (Decides(net, w, e) ==> Decided(net, w.sys, s'))
  {
    hide ApplyResults, Reload, WellFormed, TextsCanonical, Honest, Decided;
    match e {
      case Apply(io) =>
        if Decides(net, w, e) {
          ApplyHonest(net, g, w.sys, w.flight.value.targets, Outcomes(w.flight.value), io);
        }
      case ReloadRequest(c, io) =>
        if Decides(net, w, e) {
          ReloadHonest(net, g, w.sys, c, io);
        }
      case _ =>
    }
  }

  lemma {:induction false} OrderlyRun(net: Codec, g: Option<IPv4>, w: World, es: seq<Event>)
    requires TextsCanonical(net, w.sys.cfg) && Honest(net, g, w.sys) && AllOrderly(net, es)
    ensures var s := Exec(net, w, es).sys; TextsCanonical(net, s.cfg) && Honest(net, g, s)
    decreases |es|
  {
    hide Next, TextsCanonical, Honest;
    if es != [] {
      OrderlyNext(net, g, w, es[0]);
      OrderlyRun(net, g, Next(net, w, es[0]), es[1..]);
    }
  }

  /** Truthful reporting. Started over any kernel, with working route operations,
      legal addresses written canonically and no foreign edits: after any such
      events, every apply and every reload leaves the wanted gateway in place, if
      it is a legal address, and touches nothing if it is not. What is reported
      is what is in the kernel, unless nothing was ever called for: then nothing is
      reported, over the kernel as it was found. So a wanted gateway is also the one
      reported exactly if some call was made. */
  lemma ReportIsTrue(net: Codec, c: Config, g: Option<IPv4>, es: seq<Event>, e: Event)
    requires WellFormed(net, c) && TextsCanonical(net, c)
    requires AllOrderly(net, es) && Orderly(net, e)
    requires New(net, c, g).Some? && Decides(net, Reached(net, c, g, es), e)
    ensures var s, s' := Reached(net, c, g, es).sys, Next(net, Reached(net, c, g, es), e).sys;
            && (if net.Legal(Wanted(s')) then InPlace(net, s') else SameRoute(s, s'))
            && (if s'.attempts == [] then s'.currentNexthop == "" && s'.kernelGateway == g
                else s'.kernelGateway.Some? && net.render(s'.kernelGateway.value) == s'.currentNexthop)
            && (net.Legal(Wanted(s')) && !net.Legal("") ==>
                  (s'.currentNexthop == Wanted(s') <==> s'.attempts != []))
  {
    hide Next, Orderly, Decides, TextsCanonical, WellFormed, Wanted;
    OrderlyRun(net, g, World(New(net, c, g).value, None), es);
    OrderlyNext(net, g, Reached(net, c, g, es), e);
  }

  /** In particular, started over no default route, reported, wanted and actual
      gateway agree as soon as the one wanted is a legal address. */
  lemma ReportFromBareKernel(net: Codec, c: Config, es: seq<Event>, e: Event)
    requires WellFormed(net, c) && TextsCanonical(net, c)
    requires AllOrderly(net, es) && Orderly(net, e)
    requires New(net, c, None).Some? && Decides(net, Reached(net, c, None, es), e)
    requires net.Legal(Wanted(Next(net, Reached(net, c, None, es), e).sys))
    ensures Synced(net, Next(net, Reached(net, c, None, es), e).sys)
  {
    hide Next, Orderly, Decides, TextsCanonical, WellFormed, Wanted;
    ReportIsTrue(net, c, None, es, e);
  }

  // ---------- the fallback flag ----------

  /** The flag says whether the wanted gateway is written like the fallback. */
  predicate FlagRight(s: Sys) {
    s.finalActive <==> Wanted(s) == s.cfg.finalIP
  }

  /** The flag is written only when a route is installed. After a working section it
      is right exactly if a route was installed, or it was right to begin with. */
  lemma FlagAfterConverge(net: Codec, s: Sys, force: bool, io: Io)
    requires Works(io)
    ensures FlagRight(Converge(net, s, force, io)) <==> Calls(net, s, force, io) || FlagRight(s)
  {
  }

  /** After any working apply, in any state and configuration, the flag is right
      exactly if a target flipped or the route was not in place, and the gateway
      wanted is legal; or if the flag from before fits that gateway. */
  lemma FlagAfterApply(net: Codec, s: Sys, targets: seq<Target>, oks: seq<bool>, io: Io)
    requires |targets| == |oks| && Works(io)
    ensures var t, s' := AbsorbAll(s.states, targets, oks, s.cfg.stableRounds), ApplyResults(net, s, targets, oks, io);
            FlagRight(s') <==>
              || ((t.changed || !InPlace(net, s)) && net.Legal(Wanted(s')))
              || (s.finalActive <==> Wanted(s') == s.cfg.finalIP)
  {
    hide AbsorbAll;
    var t := AbsorbAll(s.states, targets, oks, s.cfg.stableRounds);
    FlagAfterConverge(net, Settle(s, t), t.changed, io);
    if !t.changed {
      UnchangedKeepsWanted(s, targets, oks);
    }
  }

  /** After any working reload likewise, of the tables the new configuration gives. */
  lemma FlagAfterReload(net: Codec, s: Sys, c: Config, io: Io)
    requires WellFormed(net, c) && Works(io)
    ensures Buildable(net, c.targets, c.probeTimeout) == |c.targets|
    ensures var a := Adopt(net, s, c);
            FlagRight(Reload(net, s, c, io)) <==>
              (!InPlace(net, a) && net.Legal(Wanted(a))) || (s.finalActive <==> Wanted(a) == c.finalIP)
  {
    ValidIsBuildable(net, c);
    FlagAfterConverge(net, Adopt(net, s, c), false, io);
  }

  predicate InOneConfig(es: seq<Event>) {
    forall k :: 0 <= k < |es| ==> !es[k].ReloadRequest?
  }

  predicate AllWorking(es: seq<Event>) {
    forall k :: 0 <= k < |es| ==> Working(es[k])
  }

  lemma FlagNext(net: Codec, w: World, e: Event)
    requires !e.ReloadRequest? && (w.sys.finalActive <==> w.sys.currentNexthop == w.sys.cfg.finalIP)
    ensures var s' := Next(net, w, e).sys;
            s'.cfg == w.sys.cfg && (s'.finalActive <==> s'.currentNexthop == s'.cfg.finalIP)
  {
  }

  lemma {:induction false} FlagRun(net: Codec, w: World, es: seq<Event>)
    requires InOneConfig(es) && (w.sys.finalActive <==> w.sys.currentNexthop == w.sys.cfg.finalIP)
    ensures var s := Exec(net, w, es).sys;
            s.cfg == w.sys.cfg && (s.finalActive <==> s.currentNexthop == s.cfg.finalIP)
    decreases |es|
  {
    hide Next;
    if es != [] {
      FlagNext(net, w, es[0]);
      FlagRun(net, Next(net, w, es[0]), es[1..]);
    }
  }

  /** What the flag means within one configuration, whatever fails and whoever edits
      the route: the route this manager installed last is the fallback. */
  lemma FlagFollowsReport(net: Codec, c: Config, g: Option<IPv4>, es: seq<Event>)
    requires WellFormed(net, c) && InOneConfig(es) && New(net, c, g).Some?
    ensures var s := Reached(net, c, g, es).sys;
            && s.cfg == c && (s.finalActive <==> s.currentNexthop == c.finalIP)
            && s.currentNexthop == LastInstalled(s.attempts)
  {
    hide Exec, Inv;
    InterleavingSafety(net, c, g, es);
    NewKeepsInv(net, c, g);
    FlagRun(net, World(New(net, c, g).value, None), es);
    assert Inv(net, Reached(net, c, g, es).sys);
    InvReports(net, Reached(net, c, g, es).sys);
  }

  lemma InvReports(net: Codec, s: Sys)
    requires Inv(net, s)
    ensures s.currentNexthop == LastInstalled(s.attempts)
  {
  }

  /** Once something was installed, a legal gateway that is wanted is the one
      reported. */
  predicate UpToDate(net: Codec, s: Sys) {
    if s.attempts == [] then s.currentNexthop == ""
    else net.Legal(Wanted(s)) ==> s.currentNexthop == Wanted(s)
  }

  lemma ApplyUpToDate(net: Codec, s: Sys, targets: seq<Target>, oks: seq<bool>, io: Io)
    requires |targets| == |oks| && Works(io) && UpToDate(net, s)
    ensures UpToDate(net, ApplyResults(net, s, targets, oks, io))
  {
    hide AbsorbAll;
    var t := AbsorbAll(s.states, targets, oks, s.cfg.stableRounds);
    if !t.changed {
      UnchangedKeepsWanted(s, targets, oks);
    }
  }

  lemma UpToDateNext(net: Codec, w: World, e: Event)
    requires UpToDate(net, w.sys) && Working(e) && !e.ReloadRequest?
    ensures UpToDate(net, Next(net, w, e).sys)
  {
    hide ApplyResults, Reload, Live;
    if e.Apply? && Decides(net, w, e) {
      ApplyUpToDate(net, w.sys, w.flight.value.targets, Outcomes(w.flight.value), e.io);
    }
  }

  lemma {:induction false} UpToDateRun(net: Codec, w: World, es: seq<Event>)
    requires UpToDate(net, w.sys) && AllWorking(es) && InOneConfig(es)
    ensures UpToDate(net, Exec(net, w, es).sys)
    decreases |es|
  {
    hide Next, UpToDate;
    if es != [] {
      UpToDateNext(net, w, es[0]);
      UpToDateRun(net, Next(net, w, es[0]), es[1..]);
    }
  }

  /** No target shares the fallback's address. */
  predicate FinalApart(c: Config) {
    forall i :: 0 <= i < |c.targets| ==> c.targets[i].ip != c.finalIP
  }

  predicate AllDown(s: Sys) {
    forall i :: 0 <= i < |s.cfg.targets| ==> s.cfg.targets[i].name !in Live(s.states)
  }

  lemma FinalIffAllDown(s: Sys)
    requires FinalApart(s.cfg)
    ensures Wanted(s) == s.cfg.finalIP <==> AllDown(s)
  {
    DesiredIsBest(s.cfg, Live(s.states));
  }

  /** The apply of the round in flight turns some target over. */
  predicate FlipsNow(w: World)
    requires w.flight.Some? && Complete(w.flight.value)
  {
    AbsorbAll(w.sys.states, w.flight.value.targets, Outcomes(w.flight.value), w.sys.cfg.stableRounds).changed
  }

  /** When the flag means what the status page says. In one configuration with the
      fallback's address apart, started over any kernel, with working route
      operations and any foreign edits: after an apply the flag is set exactly if no
      target is up, if and only if
        - with no target up: a route had been installed before, or this apply flips a
          target, or it does not find the fallback routed already;
        - with a target up: its address is legal, or the flag was not set before. */
  lemma FinalFlagMeansAllDown(net: Codec, c: Config, g: Option<IPv4>, es: seq<Event>, io: Io)
    requires WellFormed(net, c) && FinalApart(c) && AllWorking(es) && InOneConfig(es) && Works(io)
    requires New(net, c, g).Some? && Decides(net, Reached(net, c, g, es), Apply(io))
    ensures var w := Reached(net, c, g, es);
            var s' := Next(net, w, Apply(io)).sys;
            (s'.finalActive <==> AllDown(s')) <==>
              if AllDown(s') then w.sys.attempts != [] || FlipsNow(w) || !InPlace(net, w.sys)
              else net.Legal(Wanted(s')) || !w.sys.finalActive
  {
    var w := Reached(net, c, g, es);
    FlagBefore(net, c, g, es);
    FlagOfApply(net, w, io);
  }

  lemma FlagBefore(net: Codec, c: Config, g: Option<IPv4>, es: seq<Event>)
    requires WellFormed(net, c) && AllWorking(es) && InOneConfig(es) && New(net, c, g).Some?
    ensures var s := Reached(net, c, g, es).sys;
            s.cfg == c && UpToDate(net, s) && (s.finalActive <==> s.currentNexthop == c.finalIP)
  {
    hide Exec, Inv;
    NewKeepsInv(net, c, g);
    FlagFollowsReport(net, c, g, es);
    UpToDateRun(net, World(New(net, c, g).value, None), es);
  }

  lemma FlagOfApply(net: Codec, w: World, io: Io)
    requires var s := w.sys;
             && WellFormed(net, s.cfg) && FinalApart(s.cfg) && UpToDate(net, s)
             && (s.finalActive <==> s.currentNexthop == s.cfg.finalIP)
    requires Works(io) && Decides(net, w, Apply(io))
    ensures var s' := Next(net, w, Apply(io)).sys;
            (s'.finalActive <==> AllDown(s')) <==>
              if AllDown(s') then w.sys.attempts != [] || FlipsNow(w) || !InPlace(net, w.sys)
              else net.Legal(Wanted(s')) || !w.sys.finalActive
  {
    hide ApplyResults, WellFormed, AbsorbAll, Live, InPlace, FinalApart, AllDown;
    var s, f := w.sys, w.flight.value;
    var s' := ApplyResults(net, s, f.targets, Outcomes(f), io);
    assert s'.cfg == s.cfg by {
      ApplyStates(net, s, f.targets, Outcomes(f), io);
    }
    assert net.Legal(s.cfg.finalIP) && s.cfg.finalIP != "" by {
      ValidFinal(net, s.cfg);
    }
    FinalIffAllDown(s');
    FlagAfterApply(net, s, f.targets, Outcomes(f), io);
    ApplyCalls(net, s, f.targets, Outcomes(f), io);
    ApplyUpToDate(net, s, f.targets, Outcomes(f), io);
    FlagNext(net, w, Apply(io));
  }

  lemma ValidFinal(net: Codec, c: Config)
    requires WellFormed(net, c)
    ensures net.Legal(c.finalIP) && c.finalIP != ""
  {
  }

  /** So it always does if every target has a legal address, nobody else edits the
      route, and the fallback is not routed at the start. */
  lemma FinalFlagFromOtherRoute(net: Codec, c: Config, g: Option<IPv4>, es: seq<Event>, io: Io)
    requires WellFormed(net, c) && FinalApart(c) && TextsCanonical(net, c)
    requires forall i :: 0 <= i < |c.targets| ==> net.Legal(c.targets[i].ip)
    requires g.None? || net.render(g.value) != c.finalIP
    requires AllOrderly(net, es) && InOneConfig(es) && Works(io)
    requires New(net, c, g).Some? && Decides(net, Reached(net, c, g, es), Apply(io))
    ensures var s' := Next(net, Reached(net, c, g, es), Apply(io)).sys; s'.finalActive <==> AllDown(s')
  {
    hide Next, Exec, Orderly, Decides, TextsCanonical, AllDown, FinalApart, Wanted;
    var w := Reached(net, c, g, es);
    var s' := Next(net, w, Apply(io)).sys;
    OrderlyWorks(net, es);
    ApplyOrderly(net, io);
    FlagBefore(net, c, g, es);
    FlagNext(net, w, Apply(io));
    FinalFlagMeansAllDown(net, c, g, es, io);
    ReportIsTrue(net, c, g, es, Apply(io));
    FinalIffAllDown(s');
    CallCause(net, w, io);
    AllLegal(net, s');
  }

  lemma AllLegal(net: Codec, s: Sys)
    requires WellFormed(net, s.cfg) && forall i :: 0 <= i < |s.cfg.targets| ==> net.Legal(s.cfg.targets[i].ip)
    ensures net.Legal(Wanted(s))
  {
    DesiredIsBest(s.cfg, Live(s.states));
  }

  lemma CallCause(net: Codec, w: World, io: Io)
    requires Works(io) && Decides(net, w, Apply(io))
    ensures Next(net, w, Apply(io)).sys.attempts == [] || w.sys.attempts != [] || FlipsNow(w) || !InPlace(net, w.sys)
  {
    ApplyCalls(net, w.sys, w.flight.value.targets, Outcomes(w.flight.value), io);
  }

  lemma OrderlyWorks(net: Codec, es: seq<Event>)
    requires AllOrderly(net, es)
    ensures AllWorking(es)
  {
  }

  lemma ApplyOrderly(net: Codec, io: Io)
    requires Works(io)
    ensures Orderly(net, Apply(io))
  {
  }

  /** It goes stale: with the gateway of the only live target in the kernel, a
      reload that drops that target and makes its address the fallback leaves the
      flag unset although no target is up. */
  lemma FlagGoesStale(net: Codec, s: Sys, c: Config, io: Io)
    requires Inv(net, s) && Synced(net, s) && !s.finalActive && Works(io)
    requires WellFormed(net, c) && c.finalIP == Wanted(s)
    requires Names(c.targets) !! s.states.Keys
    ensures var s' := Reload(net, s, c, io); AllDown(s') && Wanted(s') == c.finalIP && !s'.finalActive
  {
    ValidIsBuildable(net, c);
    var a := Adopt(net, s, c);
    forall n | n in a.states
      ensures !a.states[n].filter.up
    {
      AdoptTables(net, s, c);
      assert n in Names(c.targets);
      RetainOrigin(s.states, c.targets, |c.targets|, n);
    }
    DesiredIsBest(c, Live(a.states));
  }
}
