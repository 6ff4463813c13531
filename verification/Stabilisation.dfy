/** Self-stabilisation: steady probe results settle every target, the route and
    the interval within StableRounds rounds, from any state; and the time one
    failing target takes to be declared down. */
module Stabilisation {
  import opened Prelude
  import opened Addresses
  import opened Configuration
  import opened Selection
  import opened Debounce
  import opened Pacing
  import opened Machine
  import opened Safety
  import opened Routing
  import opened Ordering
  import opened Rounds

  /** The debounce state of target `i` after `k` rounds. */
  function FilterAt(net: Codec, s: Sys, rs: seq<Round>, k: nat, i: nat): Filter
    requires k <= |rs| && Fits(s.cfg, rs) && Listed(s) && i < |s.cfg.targets|
  {
    AtListed(net, s, rs, k);
    NameListed(At(net, s, rs, k), i);
    At(net, s, rs, k).states[s.cfg.targets[i].name].filter
  }

  /** The table holds exactly the configured names, each once. */
  predicate Listed(s: Sys) {
    DistinctNames(s.cfg.targets) && s.states.Keys == Names(s.cfg.targets)
  }

  lemma InvListed(net: Codec, s: Sys)
    requires Inv(net, s)
    ensures Listed(s)
  {
  }

  lemma NameListed(s: Sys, i: nat)
    requires Listed(s) && i < |s.cfg.targets|
    ensures s.cfg.targets[i].name in s.states
  {
  }

  lemma StepKeys(net: Codec, s: Sys, r: Round)
    requires |r.oks| == |s.cfg.targets|
    ensures Step(net, s, r).states.Keys == s.states.Keys
  {
  }

  lemma {:induction false} AtListed(net: Codec, s: Sys, rs: seq<Round>, k: nat)
    requires k <= |rs| && Fits(s.cfg, rs) && Listed(s)
    ensures Listed(At(net, s, rs, k))
  {
    hide Step;
    if k > 0 {
      AtListed(net, s, rs, k - 1);
      StepKeys(net, At(net, s, rs, k - 1), rs[k - 1]);
    }
  }

  lemma StepFeeds(net: Codec, s: Sys, r: Round, i: nat)
    requires |r.oks| == |s.cfg.targets| && Listed(s) && i < |s.cfg.targets|
    ensures var n := s.cfg.targets[i].name;
            && n in s.states && n in Step(net, s, r).states
            && Step(net, s, r).states[n] == Feed(s.states[n], r.oks[i], s.cfg.stableRounds)
  {
    hide ApplyResults, Absorb, Feed;
    NameListed(s, i);
    ApplyStates(net, Edited(s, r.edit), s.cfg.targets, r.oks, r.io);
    AbsorbPresent(s.states, s.cfg.targets, r.oks, s.cfg.stableRounds, |s.cfg.targets|, i);
  }

  /** Round `k` shows target `i` its own result and nothing else. */
  lemma FilterNext(net: Codec, s: Sys, rs: seq<Round>, k: nat, i: nat)
    requires k < |rs| && Fits(s.cfg, rs) && Listed(s) && i < |s.cfg.targets|
    ensures FilterAt(net, s, rs, k + 1, i)
              == Observe(FilterAt(net, s, rs, k, i), rs[k].oks[i], s.cfg.stableRounds)
  {
    hide Step;
    AtListed(net, s, rs, k);
    StepFeeds(net, At(net, s, rs, k), rs[k], i);
  }

  /** Whether round `k` contains a flip, and a contrary result, target by target. */
  lemma FlagsAt(net: Codec, s: Sys, rs: seq<Round>, k: nat)
    requires k < |rs| && Fits(s.cfg, rs) && Listed(s)
    ensures TallyAt(net, s, rs, k).changed <==>
              exists i: nat :: i < |s.cfg.targets| && FlipsAt(net, s, rs, k, i)
    ensures TallyAt(net, s, rs, k).hasPending <==>
              exists i: nat :: i < |s.cfg.targets| && rs[k].oks[i] != FilterAt(net, s, rs, k, i).up
  {
    hide At;
    var st, ts, oks := At(net, s, rs, k).states, s.cfg.targets, rs[k].oks;
    AtListed(net, s, rs, k);
    AbsorbFlags(st, ts, oks, s.cfg.stableRounds, |ts|);
    forall i: nat | i < |ts|
      ensures FlipsAt(net, s, rs, k, i) <==> TurnsOver(st, ts, oks, s.cfg.stableRounds, i)
      ensures oks[i] != FilterAt(net, s, rs, k, i).up <==> Contrary(st, ts, oks, i)
    {
      NameListed(At(net, s, rs, k), i);
    }
  }

  predicate FlipsAt(net: Codec, s: Sys, rs: seq<Round>, k: nat, i: nat)
    requires k < |rs| && Fits(s.cfg, rs) && Listed(s) && i < |s.cfg.targets|
  {
    Flips(FilterAt(net, s, rs, k, i), rs[k].oks[i], s.cfg.stableRounds)
  }

  lemma FilterDirected(net: Codec, s: Sys, rs: seq<Round>, k: nat, i: nat)
    requires Inv(net, s) && k <= |rs| && Fits(s.cfg, rs) && i < |s.cfg.targets|
    ensures Listed(s)
    ensures var f := FilterAt(net, s, rs, k, i); f.pending > 0 ==> f.pendingUp == !f.up
  {
    hide At;
    AtKeepsInv(net, s, rs, k);
    AtListed(net, s, rs, k);
    NameListed(At(net, s, rs, k), i);
    PendingIsTrailingRun(At(net, s, rs, k).states[s.cfg.targets[i].name].log);
  }

  // ---------- steady results ----------

  /** Every round of the run finds exactly the targets named in `alive` reachable. */
  predicate Steady(c: Config, rs: seq<Round>, alive: set<string>)
    requires Fits(c, rs)
  {
    forall k, i :: 0 <= k < |rs| && 0 <= i < |c.targets| ==> rs[k].oks[i] == (c.targets[i].name in alive)
  }

  /** On its way to the steady value `v`: there already, or waiting with at least
      `k` results and less than a full window. */
  predicate Approaching(f: Filter, v: bool, rounds: int, k: nat) {
    f.up == v || (f.pending >= k && (k > 0 ==> f.pending < rounds))
  }

  lemma ObserveApproaches(f: Filter, v: bool, rounds: int, k: nat)
    requires Approaching(f, v, rounds, k)
    requires f.pending > 0 ==> f.pendingUp == !f.up
    ensures Approaching(Observe(f, v, rounds), v, rounds, k + 1)
    ensures f.up != v && k + 1 >= rounds ==> Flips(f, v, rounds)
  {
  }

  lemma {:induction false} SteadyApproach(net: Codec, s: Sys, rs: seq<Round>, alive: set<string>, k: nat, i: nat)
    requires Inv(net, s) && Fits(s.cfg, rs) && Steady(s.cfg, rs, alive)
    requires k <= |rs| && i < |s.cfg.targets|
    ensures Listed(s)
    ensures Approaching(FilterAt(net, s, rs, k, i), s.cfg.targets[i].name in alive, s.cfg.stableRounds, k)
  {
    hide FilterAt, Observe, TablesAgree;
    FilterDirected(net, s, rs, k, i);
    if k > 0 {
      SteadyApproach(net, s, rs, alive, k - 1, i);
      FilterDirected(net, s, rs, k - 1, i);
      FilterNext(net, s, rs, k - 1, i);
      ObserveApproaches(FilterAt(net, s, rs, k - 1, i), s.cfg.targets[i].name in alive, s.cfg.stableRounds, k - 1);
    }
  }

  /** Steady results settle every target within StableRounds rounds. */
  lemma SteadyUp(net: Codec, s: Sys, rs: seq<Round>, alive: set<string>, k: nat, i: nat)
    requires Inv(net, s) && Fits(s.cfg, rs) && Steady(s.cfg, rs, alive)
    requires s.cfg.stableRounds <= k <= |rs| && i < |s.cfg.targets|
    ensures Listed(s)
    ensures FilterAt(net, s, rs, k, i).up <==> s.cfg.targets[i].name in alive
  {
    hide FilterAt;
    SteadyApproach(net, s, rs, alive, k, i);
  }

  /** From the last round of the window on, a contrary result flips its target;
      after the window there is none. */
  lemma SteadyFlags(net: Codec, s: Sys, rs: seq<Round>, alive: set<string>, k: nat)
    requires Inv(net, s) && Fits(s.cfg, rs) && Steady(s.cfg, rs, alive)
    requires s.cfg.stableRounds - 1 <= k < |rs|
    ensures TallyAt(net, s, rs, k).hasPending ==> TallyAt(net, s, rs, k).changed
    ensures k >= s.cfg.stableRounds ==> !TallyAt(net, s, rs, k).hasPending && !TallyAt(net, s, rs, k).changed
  {
    hide FilterAt, Observe, AbsorbAll, TablesAgree;
    InvListed(net, s);
    FlagsAt(net, s, rs, k);
    forall i: nat | i < |s.cfg.targets|
      ensures rs[k].oks[i] != FilterAt(net, s, rs, k, i).up ==> FlipsAt(net, s, rs, k, i)
      ensures FlipsAt(net, s, rs, k, i) ==> rs[k].oks[i] != FilterAt(net, s, rs, k, i).up
      ensures k >= s.cfg.stableRounds ==> rs[k].oks[i] == FilterAt(net, s, rs, k, i).up
    {
      SteadyApproach(net, s, rs, alive, k, i);
      FilterDirected(net, s, rs, k, i);
      ObserveApproaches(FilterAt(net, s, rs, k, i), rs[k].oks[i], s.cfg.stableRounds, k);
      OnlyContraryFlips(FilterAt(net, s, rs, k, i), rs[k].oks[i], s.cfg.stableRounds);
    }
  }

  lemma OnlyContraryFlips(f: Filter, ok: bool, rounds: int)
    ensures Flips(f, ok, rounds) ==> ok != f.up
  {
  }

  lemma LiveIffUp(net: Codec, s: Sys, rs: seq<Round>, k: nat, i: nat)
    requires k <= |rs| && Fits(s.cfg, rs) && Listed(s) && i < |s.cfg.targets|
    ensures s.cfg.targets[i].name in Live(At(net, s, rs, k).states) <==> FilterAt(net, s, rs, k, i).up
  {
    hide At;
    AtListed(net, s, rs, k);
    NameListed(At(net, s, rs, k), i);
  }

  lemma SteadyWanted(net: Codec, s: Sys, rs: seq<Round>, alive: set<string>, k: nat)
    requires Inv(net, s) && Fits(s.cfg, rs) && Steady(s.cfg, rs, alive)
    requires s.cfg.stableRounds <= k <= |rs|
    ensures Wanted(At(net, s, rs, k)) == Desired(s.cfg, alive)
  {
    hide At, FilterAt, TablesAgree;
    var live := Live(At(net, s, rs, k).states);
    forall i | 0 <= i < |s.cfg.targets|
      ensures s.cfg.targets[i].name in live <==> s.cfg.targets[i].name in alive
    {
      SteadyUp(net, s, rs, alive, k, i);
      LiveIffUp(net, s, rs, k, i);
    }
    DesiredAgrees(s.cfg, live, alive);
  }

  lemma SteadyInterval(net: Codec, s: Sys, rs: seq<Round>, alive: set<string>, k: nat)
    requires Inv(net, s) && Fits(s.cfg, rs) && Steady(s.cfg, rs, alive)
    requires s.cfg.stableRounds <= k <= |rs|
    ensures At(net, s, rs, k).nextInterval == s.cfg.probeInterval
  {
    hide Step, AbsorbAll, TablesAgree;
    SteadyFlags(net, s, rs, alive, k - 1);
    StepPaces(net, At(net, s, rs, k - 1), rs[k - 1]);
  }

  /** The gateway in the kernel after a working round, and whether the next one
      will find it in place. */
  lemma StepRoutes(net: Codec, s: Sys, r: Round)
    requires |r.oks| == |s.cfg.targets| && Works(r.io) && net.Lawful()
    ensures var s' := Step(net, s, r);
            && s'.kernelGateway == (if net.Legal(Wanted(s')) then net.parse(Wanted(s'))
                                    else Edited(s, r.edit).kernelGateway)
            && (InPlace(net, s') <==> net.Canonical(Wanted(s')))
  {
    var t := AbsorbAll(s.states, s.cfg.targets, r.oks, s.cfg.stableRounds);
    var mid := Settle(Edited(s, r.edit), t);
    ConvergeDichotomy(net, mid, t.changed, r.io);
    MatchesIffCanonical(net, mid, t.changed, r.io);
  }

  /** What has settled after `k` rounds that found exactly `alive` reachable: every
      target is up exactly if it is in `alive`, and the interval is the configured
      one. If the last round's route operations worked, the kernel's default is the
      best target of `alive`, or the fallback; or that gateway has no legal address
      and the kernel is as it was. A further such round flips nothing; unedited and
      working, it leaves the kernel alone, and calls for a route exactly if the
      wanted text is legal but not canonical. */
  predicate Settled(net: Codec, s: Sys, rs: seq<Round>, alive: set<string>, k: nat)
    requires 1 <= k <= |rs| && Fits(s.cfg, rs) && Listed(s)
  {
    var want, now, last := Desired(s.cfg, alive), At(net, s, rs, k), rs[k - 1];
    && (forall i: nat :: i < |s.cfg.targets| ==>
          (FilterAt(net, s, rs, k, i).up <==> s.cfg.targets[i].name in alive))
    && now.nextInterval == s.cfg.probeInterval
    && (Works(last.io) ==>
          now.kernelGateway == if net.Legal(want) then net.parse(want)
                               else Edited(At(net, s, rs, k - 1), last.edit).kernelGateway)
    && (k < |rs| ==> !TallyAt(net, s, rs, k).changed && !TallyAt(net, s, rs, k).hasPending)
    && (Works(last.io) && k < |rs| && rs[k].edit.None? && Works(rs[k].io) ==>
          var next := At(net, s, rs, k + 1);
          && next.kernelGateway == now.kernelGateway
          && next.attempts == now.attempts + if net.Legal(want) && !net.Canonical(want) then [Attempt(want, true)] else [])
  }

  /** Self-stabilisation. From any state the machine can be in, over any kernel
      and any foreign edits: once StableRounds rounds have found exactly `alive`
      reachable, everything has settled. */
  lemma SelfStabilises(net: Codec, s: Sys, rs: seq<Round>, alive: set<string>, k: nat)
    requires Inv(net, s) && net.Lawful()
    requires Fits(s.cfg, rs) && Steady(s.cfg, rs, alive)
    requires s.cfg.stableRounds <= k <= |rs|
    ensures k >= 1 && Listed(s) && Settled(net, s, rs, alive, k)
  {
    hide Step, FilterAt, AbsorbAll, TablesAgree, Wanted;
    InvListed(net, s);
    forall i: nat | i < |s.cfg.targets|
      ensures FilterAt(net, s, rs, k, i).up <==> s.cfg.targets[i].name in alive
    {
      SteadyUp(net, s, rs, alive, k, i);
    }
    SteadyInterval(net, s, rs, alive, k);
    SteadyWanted(net, s, rs, alive, k);
    if k < |rs| {
      SteadyFlags(net, s, rs, alive, k);
    }
    if Works(rs[k - 1].io) {
      StepRoutes(net, At(net, s, rs, k - 1), rs[k - 1]);
      if k < |rs| && rs[k].edit.None? && Works(rs[k].io) {
        SettledRound(net, At(net, s, rs, k), rs[k]);
      }
    }
  }

  /** A working round in which nothing flips, over a kernel a working round left. */
  lemma SettledRound(net: Codec, s: Sys, r: Round)
    requires |r.oks| == |s.cfg.targets| && r.edit.None? && Works(r.io) && net.Lawful()
    requires !AbsorbAll(s.states, s.cfg.targets, r.oks, s.cfg.stableRounds).changed
    requires InPlace(net, s) <==> net.Canonical(Wanted(s))
    requires net.Legal(Wanted(s)) ==> s.kernelGateway == net.parse(Wanted(s))
    ensures Step(net, s, r).kernelGateway == s.kernelGateway
    ensures Step(net, s, r).attempts == s.attempts +
              if net.Legal(Wanted(s)) && !net.Canonical(Wanted(s)) then [Attempt(Wanted(s), true)] else []
  {
    ApplyCalls(net, s, s.cfg.targets, r.oks, r.io);
    ApplyDichotomy(net, s, s.cfg.targets, r.oks, r.io);
    UnchangedKeepsWanted(s, s.cfg.targets, r.oks);
  }

  /** From wherever any interleaving of rounds, reloads and route edits has taken a
      manager started on any valid configuration, between two rounds, the events of
      StableRounds rounds of steady results lead to a settled state. */
  lemma StabilisesFromAnyRun(net: Codec, c: Config, g: Option<IPv4>, es: seq<Event>,
                             rs: seq<Round>, alive: set<string>, k: nat)
    requires WellFormed(net, c) && net.Lawful() && New(net, c, g).Some?
    requires Reached(net, c, g, es).flight.None?
    requires var s := Reached(net, c, g, es).sys;
             Fits(s.cfg, rs) && Steady(s.cfg, rs, alive) && s.cfg.stableRounds <= k <= |rs|
    ensures var s := Reached(net, c, g, es).sys;
            && k >= 1 && Listed(s) && Settled(net, s, rs, alive, k)
            && Reached(net, c, g, es + RunEvents(rs, k)) == World(At(net, s, rs, k), None)
  {
    hide At, Inv, Desired, Fits, Steady, Settled, Exec;
    InterleavingSafety(net, c, g, es);
    var s := Reached(net, c, g, es).sys;
    SelfStabilises(net, s, rs, alive, k);
    RunIsEvents(net, s, rs, k);
    ExecConcat(net, World(New(net, c, g).value, None), es, RunEvents(rs, k));
  }

  // ---------- one failing target ----------

  lemma ContraryCounts(f: Filter, rounds: int, k: nat)
    requires f.pending == k && (f.pending > 0 ==> f.pendingUp == !f.up)
    ensures k + 1 < rounds ==> Observe(f, !f.up, rounds) == Filter(f.up, k + 1, !f.up)
    ensures k + 1 >= rounds ==> Observe(f, !f.up, rounds).up == !f.up
  {
  }

  lemma {:induction false} ContraryRun(net: Codec, s: Sys, rs: seq<Round>, i: nat, k: nat)
    requires Inv(net, s) && Fits(s.cfg, rs) && i < |s.cfg.targets|
    requires Listed(s) && FilterAt(net, s, rs, 0, i).pending == 0
    requires k <= |rs| && k < s.cfg.stableRounds
    requires forall j: nat :: j < k ==> rs[j].oks[i] != FilterAt(net, s, rs, 0, i).up
    ensures FilterAt(net, s, rs, k, i).up == FilterAt(net, s, rs, 0, i).up
    ensures FilterAt(net, s, rs, k, i).pending == k
  {
    hide FilterAt, Observe, TablesAgree;
    if k > 0 {
      ContraryRun(net, s, rs, i, k - 1);
      FilterDirected(net, s, rs, k - 1, i);
      FilterNext(net, s, rs, k - 1, i);
      ContraryCounts(FilterAt(net, s, rs, k - 1, i), s.cfg.stableRounds, k - 1);
    }
  }

  /** Failover time. A target with nothing pending starts to give the contrary
      result and keeps giving it; no other target flips before it does. It keeps
      its state for StableRounds - 1 rounds and turns over at the next. The waits in
      between are the accelerated ones, and sum to at most the interval it started
      at, less that interval halved as often, plus 100ms a round; and the same with
      the configured interval, if that is at least 100ms. */
  lemma FailoverTime(net: Codec, s: Sys, rs: seq<Round>, i: nat)
    requires Inv(net, s) && Fits(s.cfg, rs) && i < |s.cfg.targets|
    requires Listed(s) && FilterAt(net, s, rs, 0, i).pending == 0
    requires |rs| == s.cfg.stableRounds
    requires forall k: nat :: k < |rs| ==> rs[k].oks[i] != FilterAt(net, s, rs, 0, i).up
    requires forall k: nat :: k < |rs| - 1 ==> !TallyAt(net, s, rs, k).changed
    ensures forall k: nat :: k < |rs| ==> FilterAt(net, s, rs, k, i).up == FilterAt(net, s, rs, 0, i).up
    ensures FilterAt(net, s, rs, |rs|, i).up != FilterAt(net, s, rs, 0, i).up
    ensures WaitSum(net, s, rs, |rs| - 1) == AcceleratedSum(s.nextInterval, |rs| - 1)
              <= s.nextInterval - s.nextInterval / Power2(|rs| - 1) + (|rs| - 1) * 100_000_000
    ensures s.cfg.probeInterval >= 100_000_000 ==>
              WaitSum(net, s, rs, |rs| - 1)
                <= s.cfg.probeInterval - s.cfg.probeInterval / Power2(|rs| - 1) + (|rs| - 1) * 100_000_000
  {
    hide FilterAt, Observe, TablesAgree, AbsorbAll, Step, WaitSum, Power2;
    var m := |rs| - 1;
    forall k: nat | k < |rs|
      ensures FilterAt(net, s, rs, k, i).up == FilterAt(net, s, rs, 0, i).up
      ensures k < m ==> Accelerates(net, s, rs, k)
    {
      ContraryRun(net, s, rs, i, k);
      FlagsAt(net, s, rs, k);
      assert rs[k].oks[i] != FilterAt(net, s, rs, k, i).up;
    }
    ContraryRun(net, s, rs, i, m);
    FilterDirected(net, s, rs, m, i);
    FilterNext(net, s, rs, m, i);
    ContraryCounts(FilterAt(net, s, rs, m, i), s.cfg.stableRounds, m);
    AcceleratingRun(net, s, rs, m);
    if s.cfg.probeInterval >= MIN_INTERVAL {
      ShareMonotone(s.nextInterval, s.cfg.probeInterval, Power2(m));
    }
  }

  /** The documented example: at 5s and StableRounds 3, the wait during which the
      target fails and the two that follow come to 8.75s at the round that turns
      it over. */
  lemma DocumentedSwitch(net: Codec, s: Sys, rs: seq<Round>, i: nat)
    requires Inv(net, s) && Fits(s.cfg, rs) && i < |s.cfg.targets|
    requires s.nextInterval == s.cfg.probeInterval == 5_000_000_000 && |rs| == s.cfg.stableRounds == 3
    requires Listed(s) && FilterAt(net, s, rs, 0, i).pending == 0
    requires forall k: nat :: k < |rs| ==> rs[k].oks[i] != FilterAt(net, s, rs, 0, i).up
    requires forall k: nat :: k < |rs| - 1 ==> !TallyAt(net, s, rs, k).changed
    ensures FilterAt(net, s, rs, 2, i).up == FilterAt(net, s, rs, 0, i).up != FilterAt(net, s, rs, 3, i).up
    ensures s.nextInterval + WaitSum(net, s, rs, 2) == 8_750_000_000
  {
    hide FilterAt, TablesAgree, AbsorbAll, Step, WaitSum, Power2;
    FailoverTime(net, s, rs, i);
    assert Accelerated(5_000_000_000, 1) == 2_500_000_000;
    assert Accelerated(5_000_000_000, 2) == 1_250_000_000;
    assert AcceleratedSum(5_000_000_000, 1) == 2_500_000_000;
  }
}
