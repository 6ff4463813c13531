/** What every interleaving of rounds, reloads and foreign route edits keeps. */
module Safety {
  import opened Prelude
  import opened Addresses
  import opened Configuration
  import opened Debounce
  import opened Pacing
  import opened Machine

  /** The gateway of the last successful replacement, "" before the first. */
  function LastInstalled(attempts: seq<Attempt>): string {
    if attempts == [] then ""
    else if attempts[|attempts| - 1].ok then attempts[|attempts| - 1].gateway
    else LastInstalled(attempts[..|attempts| - 1])
  }

  /** The tables agree with the configuration, name by name. */
  predicate TablesAgree(net: Codec, s: Sys) {
    && s.states.Keys == s.probers.Keys == Names(s.cfg.targets)
    && forall i :: 0 <= i < |s.cfg.targets| ==>
         && s.cfg.targets[i].name in s.states
         && s.states[s.cfg.targets[i].name].target == s.cfg.targets[i]
         && s.cfg.targets[i].name in s.probers
         && Serves(net, s.probers[s.cfg.targets[i].name], s.cfg.targets[i], s.cfg.probeTimeout)
  }

  /** Every filter is what its own history makes of a fresh one. */
  predicate HistoriesHold(states: map<string, Slot>) {
    forall n :: n in states ==> states[n].filter == Replay(states[n].log)
  }

  predicate IntervalInBounds(s: Sys) {
    || s.cfg.probeInterval <= s.nextInterval <= 100_000_000
    || 100_000_000 <= s.nextInterval <= s.cfg.probeInterval
  }

  predicate Inv(net: Codec, s: Sys) {
    && WellFormed(net, s.cfg)
    && TablesAgree(net, s)
    && HistoriesHold(s.states)
    && IntervalInBounds(s)
    && s.currentNexthop == LastInstalled(s.attempts)
  }

  /** A round in flight has, for each of its targets, the prober that serves it with
      the round's timeout; entries it does not cover have not seen a result yet. */
  predicate FlightInv(net: Codec, s: Sys, f: Flight) {
    && |f.results| == |f.targets|
    && DistinctNames(f.targets)
    && (forall i :: 0 <= i < |f.targets| ==>
          f.targets[i].name in f.probers && Serves(net, f.probers[f.targets[i].name], f.targets[i], f.timeout))
    && (forall n :: n in s.states && n !in Names(f.targets) ==> s.states[n].log == [])
  }

  predicate WorldInv(net: Codec, w: World) {
    Inv(net, w.sys) && (w.flight.Some? ==> FlightInv(net, w.sys, w.flight.value))
  }

  // ---------- the tables a reload builds ----------

  lemma {:induction false} RetainKeys(states: map<string, Slot>, ts: seq<Target>, k: nat)
    requires k <= |ts|
    ensures Retain(states, ts, k).Keys == Names(ts[..k])
  {
    if k > 0 {
      RetainKeys(states, ts, k - 1);
      NamesNext(ts, k - 1);
    }
  }

  lemma {:induction false} RetainAt(states: map<string, Slot>, ts: seq<Target>, k: nat, i: nat)
    requires i < k <= |ts| && DistinctNames(ts)
    ensures ts[i].name in Retain(states, ts, k)
    ensures Retain(states, ts, k)[ts[i].name]
              == if ts[i].name in states then states[ts[i].name].(target := ts[i]) else NewSlot(ts[i])
  {
    if i < k - 1 {
      RetainAt(states, ts, k - 1, i);
      assert ts[i].name != ts[k - 1].name;
    }
  }

  lemma {:induction false} BuildProbersKeys(net: Codec, ts: seq<Target>, timeout: int, k: nat)
    requires k <= |ts|
    requires forall i :: 0 <= i < k ==> NewProber(net, ts[i], timeout).Some?
    ensures BuildProbers(net, ts, timeout, k).Keys == Names(ts[..k])
  {
    if k > 0 {
      BuildProbersKeys(net, ts, timeout, k - 1);
      NamesNext(ts, k - 1);
    }
  }

  lemma {:induction false} BuildProbersAt(net: Codec, ts: seq<Target>, timeout: int, k: nat, i: nat)
    requires i < k <= |ts| && DistinctNames(ts)
    requires forall i :: 0 <= i < k ==> NewProber(net, ts[i], timeout).Some?
    ensures ts[i].name in BuildProbers(net, ts, timeout, k)
    ensures BuildProbers(net, ts, timeout, k)[ts[i].name] == NewProber(net, ts[i], timeout).value
  {
    if i < k - 1 {
      BuildProbersAt(net, ts, timeout, k - 1, i);
      assert ts[i].name != ts[k - 1].name;
    }
  }

  lemma NamesNext(ts: seq<Target>, i: nat)
    requires i < |ts|
    ensures Names(ts[..i + 1]) == Names(ts[..i]) + {ts[i].name}
  {
  }

  /** A validated configuration never makes New or Reload fail. */
  lemma ValidIsBuildable(net: Codec, c: Config)
    requires WellFormed(net, c)
    ensures Buildable(net, c.targets, c.probeTimeout) == |c.targets|
    ensures forall g :: New(net, c, g).Some?
  {
  }

  lemma AdoptTables(net: Codec, s: Sys, c: Config)
    requires WellFormed(net, c)
    requires Buildable(net, c.targets, c.probeTimeout) == |c.targets|
    ensures TablesAgree(net, Adopt(net, s, c))
  {
    var n := |c.targets|;
    assert c.targets[..n] == c.targets;
    RetainKeys(s.states, c.targets, n);
    BuildProbersKeys(net, c.targets, c.probeTimeout, n);
    hide Retain, BuildProbers, NewProber, Serves;
    var built, kept := BuildProbers(net, c.targets, c.probeTimeout, n), Retain(s.states, c.targets, n);
    forall i | 0 <= i < n
      ensures c.targets[i].name in built && Serves(net, built[c.targets[i].name], c.targets[i], c.probeTimeout)
      ensures c.targets[i].name in kept && kept[c.targets[i].name].target == c.targets[i]
    {
      RetainAt(s.states, c.targets, n, i);
      BuildProbersAt(net, c.targets, c.probeTimeout, n, i);
      NewProberServes(net, c.targets[i], c.probeTimeout, built[c.targets[i].name]);
    }
  }

  /** Each entry of the new table is an old one with a new target, or fresh. */
  lemma {:induction false} RetainOrigin(states: map<string, Slot>, ts: seq<Target>, k: nat, n: string)
    requires k <= |ts| && n in Retain(states, ts, k)
    ensures var slot := Retain(states, ts, k)[n];
            if n in states then slot.filter == states[n].filter && slot.log == states[n].log
            else slot.filter == FRESH && slot.log == []
  {
    if k > 0 && n != ts[k - 1].name {
      RetainOrigin(states, ts, k - 1, n);
    }
  }

  lemma AdoptKeepsInv(net: Codec, s: Sys, c: Config)
    requires HistoriesHold(s.states) && s.currentNexthop == LastInstalled(s.attempts)
    requires WellFormed(net, c)
    ensures Buildable(net, c.targets, c.probeTimeout) == |c.targets|
    ensures Inv(net, Adopt(net, s, c))
  {
    ValidIsBuildable(net, c);
    AdoptTables(net, s, c);
    var m := Adopt(net, s, c).states;
    forall n | n in m
      ensures m[n].filter == Replay(m[n].log)
    {
      RetainOrigin(s.states, c.targets, |c.targets|, n);
    }
  }

  /** A manager made from a valid configuration starts in the invariant, every
      target down and nothing routed or reported. */
  lemma NewKeepsInv(net: Codec, c: Config, g: Option<IPv4>)
    requires WellFormed(net, c)
    ensures New(net, c, g).Some? && Inv(net, New(net, c, g).value)
    ensures var s := New(net, c, g).value;
            && s.cfg == c && s.nextInterval == c.probeInterval && s.kernelGateway == g
            && s.attempts == [] && s.currentNexthop == "" && !s.finalActive
            && forall n :: n in s.states ==> s.states[n].filter == Filter(false, 0, false) && s.states[n].log == []
  {
    ValidIsBuildable(net, c);
    var empty := Sys(c, map[], map[], 0, "", false, g, []);
    AdoptKeepsInv(net, empty, c);
    assert New(net, c, g).value == Adopt(net, empty, c);
    forall n | n in New(net, c, g).value.states
      ensures New(net, c, g).value.states[n].filter == FRESH && New(net, c, g).value.states[n].log == []
    {
      RetainOrigin(map[], c.targets, |c.targets|, n);
    }
  }

  // ---------- one step ----------

  /** A routing section touches the route, its record and its report, no more. */
  lemma ConvergeFrame(net: Codec, s: Sys, force: bool, io: Io)
    ensures var s' := Converge(net, s, force, io);
            s' == s.(kernelGateway := s'.kernelGateway, attempts := s'.attempts,
                     currentNexthop := s'.currentNexthop, finalActive := s'.finalActive)
    ensures s.currentNexthop == LastInstalled(s.attempts) ==>
              Converge(net, s, force, io).currentNexthop == LastInstalled(Converge(net, s, force, io).attempts)
  {
    hide Wanted, InPlace;
    var s' := Converge(net, s, force, io);
    if s'.attempts != s.attempts {
      assert s'.attempts[..|s'.attempts| - 1] == s.attempts;
    }
  }

  lemma ConvergeKeepsInv(net: Codec, s: Sys, force: bool, io: Io)
    requires Inv(net, s)
    ensures Inv(net, Converge(net, s, force, io))
    ensures Converge(net, s, force, io).states == s.states
    ensures Converge(net, s, force, io).cfg == s.cfg
  {
    hide Converge, LastInstalled, HistoriesHold, WellFormed;
    ConvergeFrame(net, s, force, io);
  }

  lemma FeedReplays(slot: Slot, ok: bool, rounds: int)
    requires slot.filter == Replay(slot.log)
    ensures Feed(slot, ok, rounds).filter == Replay(Feed(slot, ok, rounds).log)
  {
  }

  lemma NextIntervalInBounds(current: int, base: int, hasPending: bool, changed: bool)
    requires base <= current <= 100_000_000 || 100_000_000 <= current <= base
    ensures var next := NextInterval(current, base, hasPending, changed);
            base <= next <= 100_000_000 || 100_000_000 <= next <= base
  {
  }

  /** Routing never touches the debounce tables. */
  lemma ApplyStates(net: Codec, s: Sys, targets: seq<Target>, oks: seq<bool>, io: Io)
    requires |targets| == |oks|
    ensures var s' := ApplyResults(net, s, targets, oks, io);
            && s'.cfg == s.cfg
            && s'.states == AbsorbAll(s.states, targets, oks, s.cfg.stableRounds).states
  {
  }

  /** Feeding a round into the tables keeps them in agreement, whatever round it
      is: one taken before any number of reloads included. */
  lemma SettleKeepsInv(net: Codec, s: Sys, targets: seq<Target>, oks: seq<bool>)
    requires Inv(net, s) && |targets| == |oks| && DistinctNames(targets)
    ensures Inv(net, Settle(s, AbsorbAll(s.states, targets, oks, s.cfg.stableRounds)))
  {
    var rounds := s.cfg.stableRounds;
    var t := AbsorbAll(s.states, targets, oks, rounds);
    RoundPointwise(s.states, targets, oks, rounds);
    forall n | n in s.states
      ensures t.states[n].target == s.states[n].target && t.states[n].filter == Replay(t.states[n].log)
    {
      if n in Names(targets) {
        var i :| 0 <= i < |targets| && targets[i].name == n;
        FeedReplays(s.states[n], oks[i], rounds);
      }
    }
    NextIntervalInBounds(s.nextInterval, s.cfg.probeInterval, t.hasPending, t.changed);
  }

  lemma ApplyKeepsInv(net: Codec, s: Sys, targets: seq<Target>, oks: seq<bool>, io: Io)
    requires Inv(net, s) && |targets| == |oks| && DistinctNames(targets)
    ensures Inv(net, ApplyResults(net, s, targets, oks, io))
  {
    SettleKeepsInv(net, s, targets, oks);
    var t := AbsorbAll(s.states, targets, oks, s.cfg.stableRounds);
    ConvergeKeepsInv(net, Settle(s, t), t.changed, io);
  }

  lemma ReloadKeepsInv(net: Codec, s: Sys, c: Config, io: Io)
    requires Inv(net, s) && WellFormed(net, c)
    ensures Inv(net, Reload(net, s, c, io))
    ensures Reload(net, s, c, io).cfg == c
    ensures Reload(net, s, c, io).states == Retain(s.states, c.targets, |c.targets|)
  {
    AdoptKeepsInv(net, s, c);
    ConvergeKeepsInv(net, Adopt(net, s, c), false, io);
  }

  /** Entries a flight does not cover stay unfed across a reload. */
  lemma ReloadKeepsFlight(net: Codec, s: Sys, f: Flight, c: Config, io: Io)
    requires Inv(net, s) && WellFormed(net, c) && FlightInv(net, s, f)
    ensures FlightInv(net, Reload(net, s, c, io), f)
  {
    ReloadKeepsInv(net, s, c, io);
    var m := Retain(s.states, c.targets, |c.targets|);
    forall n | n in m && n !in Names(f.targets)
      ensures m[n].log == []
    {
      RetainOrigin(s.states, c.targets, |c.targets|, n);
    }
  }

  lemma LaunchIsGood(net: Codec, s: Sys)
    requires Inv(net, s)
    ensures FlightInv(net, s, Launch(s))
  {
  }

  lemma NextKeepsInv(net: Codec, w: World, e: Event)
    requires WorldInv(net, w)
    ensures WorldInv(net, Next(net, w, e))
  {
    match e {
      case Snapshot =>
        LaunchIsGood(net, w.sys);
      case ProbeDone(i, ok) =>
      case Apply(io) =>
        if w.flight.Some? && Complete(w.flight.value) {
          var f := w.flight.value;
          ApplyKeepsInv(net, w.sys, f.targets, Outcomes(f), io);
        }
      case ReloadRequest(c, io) =>
        if WellFormed(net, c) {
          ReloadKeepsInv(net, w.sys, c, io);
          if w.flight.Some? {
            ReloadKeepsFlight(net, w.sys, w.flight.value, c, io);
          }
        }
      case RouteEdit(g) =>
    }
  }

  /** A round in flight stays what its snapshot made it until it is applied: the same
      targets, probers and timeout, and a result once there does not change. */
  predicate Continues(f: Flight, f': Flight) {
    && f'.targets == f.targets && f'.probers == f.probers && f'.timeout == f.timeout
    && |f'.results| == |f.results|
    && forall i :: 0 <= i < |f.results| && f.results[i].Some? ==> f'.results[i] == f.results[i]
  }

  lemma FlightContinues(net: Codec, w: World, e: Event)
    requires w.flight.Some? && (e.Apply? ==> !Complete(w.flight.value))
    ensures Next(net, w, e).flight.Some? && Continues(w.flight.value, Next(net, w, e).flight.value)
  {
  }

  // ---------- every run ----------

  lemma {:induction false} ExecKeepsInv(net: Codec, w: World, es: seq<Event>)
    requires WorldInv(net, w)
    ensures WorldInv(net, Exec(net, w, es))
    decreases |es|
  {
    if es != [] {
      NextKeepsInv(net, w, es[0]);
      ExecKeepsInv(net, Next(net, w, es[0]), es[1..]);
    }
  }

  /** Over any events but a completed apply. */
  lemma {:induction false} FlightOverRun(net: Codec, w: World, es: seq<Event>)
    requires w.flight.Some? && forall k :: 0 <= k < |es| ==> !es[k].Apply?
    ensures Exec(net, w, es).flight.Some? && Continues(w.flight.value, Exec(net, w, es).flight.value)
    decreases |es|
  {
    if es != [] {
      FlightContinues(net, w, es[0]);
      hide Next;
      FlightOverRun(net, Next(net, w, es[0]), es[1..]);
    }
  }

  /** The manager started on configuration `c` over any kernel, after any events. */
  function Reached(net: Codec, c: Config, g: Option<IPv4>, es: seq<Event>): World
    requires New(net, c, g).Some?
  {
    Exec(net, World(New(net, c, g).value, None), es)
  }

  /** Interleaving safety: after any events whatever, the tables agree with the
      configuration, every snapshot target has a prober, the interval is in its
      bounds and the reported gateway is the last one installed. */
  lemma InterleavingSafety(net: Codec, c: Config, g: Option<IPv4>, es: seq<Event>)
    requires WellFormed(net, c)
    ensures New(net, c, g).Some? && WorldInv(net, Reached(net, c, g, es))
  {
    NewKeepsInv(net, c, g);
    ExecKeepsInv(net, World(New(net, c, g).value, None), es);
  }

  /** In every reachable state each configured target is probed as its entry says:
      the prober kept under its name is of its method, aimed at its end point, with
      the configured timeout. The round in flight holds to what the configuration
      was at its snapshot. */
  lemma ProbersServeOverRuns(net: Codec, c: Config, g: Option<IPv4>, es: seq<Event>, i: nat)
    requires WellFormed(net, c) && New(net, c, g).Some?
    ensures var s := Reached(net, c, g, es).sys;
            i < |s.cfg.targets| ==>
              var t := s.cfg.targets[i];
              t.name in s.probers &&
              match s.probers[t.name]
              case PingProber(a, wait) => t.probe == Ping && net.parse(t.ip) == Some(a) && wait == s.cfg.probeTimeout
              case TCPProber(h, p, wait) => t.probe == TCP && h == t.ip && p == t.port && wait == s.cfg.probeTimeout
              case UDPProber(h, p, wait) => t.probe == UDP && h == t.ip && p == t.port && wait == s.cfg.probeTimeout
              case HTTPProber(u, wait) => t.probe == HTTP && u == t.url && wait == s.cfg.probeTimeout
    ensures var f := Reached(net, c, g, es).flight;
            f.Some? && i < |f.value.targets| ==>
              var t := f.value.targets[i];
              t.name in f.value.probers && Serves(net, f.value.probers[t.name], t, f.value.timeout)
  {
    hide Exec, HistoriesHold, WellFormed;
    InterleavingSafety(net, c, g, es);
  }

  /** The debounced state of every target of every reachable state is decided by
      its history alone: the value of the latest result that closed a full window
      of agreeing results, down when there is none; and the results waiting to
      turn it over are exactly the contrary run at the end of the history. */
  lemma DebounceOverRuns(net: Codec, c: Config, g: Option<IPv4>, es: seq<Event>, n: string)
    requires WellFormed(net, c) && New(net, c, g).Some?
    requires n in Reached(net, c, g, es).sys.states
    ensures var slot := Reached(net, c, g, es).sys.states[n];
            var j := LatestConfirmed(slot.log);
            && (slot.filter.up <==> j >= 0 && slot.log[j].ok)
            && TrailingRun(slot.log, !slot.filter.up, slot.filter.pending)
            && (slot.filter.pending > 0 ==> slot.filter.pendingUp != slot.filter.up)
  {
    InterleavingSafety(net, c, g, es);
    var h := Reached(net, c, g, es).sys.states[n].log;
    UpIsLatestConfirmed(h);
    PendingIsTrailingRun(h);
  }

  lemma InvHasRounds(net: Codec, s: Sys)
    requires Inv(net, s)
    ensures s.cfg.stableRounds >= 1
  {
  }

  lemma ObserveBelowThreshold(f: Filter, ok: bool, rounds: int)
    requires rounds >= 1
    ensures Observe(f, ok, rounds).pending < rounds
  {
  }

  lemma AbsorbBelowThreshold(states: map<string, Slot>, targets: seq<Target>, oks: seq<bool>, rounds: int, n: string)
    requires |targets| == |oks| && DistinctNames(targets) && rounds >= 1
    requires n in states && (n !in Names(targets) ==> states[n].log == [] && states[n].filter == FRESH)
    ensures AbsorbAll(states, targets, oks, rounds).states[n].filter.pending < rounds
  {
    if n in Names(targets) {
      var i :| 0 <= i < |targets| && targets[i].name == n;
      AbsorbPresent(states, targets, oks, rounds, |targets|, i);
      ObserveBelowThreshold(states[n].filter, oks[i], rounds);
    } else {
      AbsorbAbsent(states, targets, oks, rounds, |targets|, n);
    }
  }

  lemma FilterFresh(net: Codec, w: World, n: string)
    requires WorldInv(net, w) && w.flight.Some? && n in w.sys.states && n !in Names(w.flight.value.targets)
    ensures w.sys.states[n].log == [] && w.sys.states[n].filter == FRESH
  {
    hide TablesAgree;
  }

  /** After an apply no target is left waiting with a full window, even when a
      reload lowered StableRounds during the round. */
  lemma ApplyLeavesNoFullWindow(net: Codec, w: World, io: Io, n: string)
    requires WorldInv(net, w) && w.flight.Some? && Complete(w.flight.value)
    requires n in w.sys.states
    ensures var s' := Next(net, w, Apply(io)).sys;
            n in s'.states && s'.states[n].filter.pending < s'.cfg.stableRounds
  {
    var s, f := w.sys, w.flight.value;
    if n !in Names(f.targets) {
      FilterFresh(net, w, n);
    }
    InvHasRounds(net, s);
    hide Inv, ApplyResults, AbsorbAll;
    ApplyStates(net, s, f.targets, Outcomes(f), io);
    AbsorbBelowThreshold(s.states, f.targets, Outcomes(f), s.cfg.stableRounds, n);
  }

  /** An apply reaches exactly the targets of its own snapshot that are in the
      table now: those take their own result, all others stay as they are. A name
      that reloads removed and added again in the meantime is among the former. */
  lemma ApplyReachesSnapshot(net: Codec, w: World, io: Io, n: string)
    requires WorldInv(net, w) && w.flight.Some? && Complete(w.flight.value)
    requires n in w.sys.states
    ensures var f, s, s' := w.flight.value, w.sys, Next(net, w, Apply(io)).sys;
            && n in s'.states
            && (n !in Names(f.targets) ==> s'.states[n] == s.states[n])
            && (forall i :: 0 <= i < |f.targets| && f.targets[i].name == n ==>
                  s'.states[n] == Feed(s.states[n], f.results[i].value, s.cfg.stableRounds))
  {
    hide Inv, Next, AbsorbAll, Feed;
    ApplyFeeds(net, w, io);
    AbsorbReaches(w.sys.states, w.flight.value.targets, Outcomes(w.flight.value), w.sys.cfg.stableRounds, n);
  }

  lemma ApplyFeeds(net: Codec, w: World, io: Io)
    requires w.flight.Some? && Complete(w.flight.value)
    ensures var f, s, s' := w.flight.value, w.sys, Next(net, w, Apply(io)).sys;
            s'.states.Keys == s.states.Keys && s'.states == AbsorbAll(s.states, f.targets, Outcomes(f), s.cfg.stableRounds).states
  {
    hide ApplyResults;
    ApplyStates(net, w.sys, w.flight.value.targets, Outcomes(w.flight.value), io);
  }

  lemma AbsorbReaches(states: map<string, Slot>, targets: seq<Target>, oks: seq<bool>, rounds: int, n: string)
    requires |targets| == |oks| && DistinctNames(targets) && n in states
    ensures var slot := AbsorbAll(states, targets, oks, rounds).states[n];
            && (n !in Names(targets) ==> slot == states[n])
            && (forall i :: 0 <= i < |targets| && targets[i].name == n ==> slot == Feed(states[n], oks[i], rounds))
  {
    RoundPointwise(states, targets, oks, rounds);
  }
}
