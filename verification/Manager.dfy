/** The manager as it runs: objects updated in place, over the real router. Each
    method is proved to be one step of the pure machine
    (internal/state/state.go, cmd/nexthop/run.go). */
module Managers {
  import opened Prelude
  import opened Addresses
  import opened Configuration
  import opened Selection
  import opened Debounce
  import opened Pacing
  import opened Machine
  import opened Safety
  import opened Routing
  import opened Ordering
  import opened Rounds
  import opened Stabilisation
  import opened RouteTable
  import opened Routers
  import opened Listing

  /** The live state of one target. */
  class TargetState {
    var target: Target
    var up: bool
    var pending: nat
    var pendingUp: bool
    ghost var log: seq<Sample>

    constructor (t: Target)
      ensures Value() == NewSlot(t)
    {
      target, up, pending, pendingUp, log := t, false, 0, false, [];
    }

    ghost function Value(): Slot
      reads this
    {
      Slot(target, Filter(up, pending, pendingUp), log)
    }

    /** Takes over a new description. */
    method Retarget(t: Target)
      modifies this`target
      ensures Value() == old(Value()).(target := t)
    {
      target := t;
    }

    /** Takes in one probe result. */
    method Absorb(ok: bool, rounds: int) returns (contrary: bool, flipped: bool)
      modifies this
      ensures Value() == Feed(old(Value()), ok, rounds)
      ensures contrary <==> ok != old(up)
      ensures flipped <==> Flips(old(Value()).filter, ok, rounds)
    {
      contrary, flipped := false, false;
      log := log + [Sample(ok, rounds)];
      if ok != up {
        if pending == 0 || pendingUp != ok {
          pending := 1;
          pendingUp := ok;
        } else {
          pending := pending + 1;
        }
        contrary := true;
        if pending >= rounds {
          up := ok;
          pending := 0;
          flipped := true;
        }
      } else {
        pending := 0;
      }
    }
  }

  /** One round between its snapshot and its apply: the probes, running in
      parallel, each fill in their own place. */
  class InFlight {
    const targets: seq<Target>
    const probers: map<string, Prober>
    const timeout: int
    const results: array<Option<bool>>

    constructor (targets: seq<Target>, probers: map<string, Prober>, timeout: int)
      ensures Value() == Flight(targets, probers, timeout, seq(|targets|, _ => None))
      ensures fresh(results) && results.Length == |targets|
    {
      this.targets := targets;
      this.probers := probers;
      this.timeout := timeout;
      this.results := new Option<bool>[|targets|](_ => None);
    }

    ghost function Value(): Flight
      reads this, results
    {
      Flight(targets, probers, timeout, results[..])
    }

    method Complete(i: nat, ok: bool)
      requires i < results.Length
      modifies results
      ensures Value() == old(Value()).(results := old(results[..])[i := Some(ok)])
    {
      results[i] := Some(ok);
    }

    /** All probes have finished. */
    method Finished() returns (all: bool)
      requires results.Length == |targets|
      ensures all <==> Machine.Complete(Value())
    {
      for i := 0 to results.Length
        invariant forall k :: 0 <= k < i ==> results[k].Some?
      {
        if results[i].None? {
          return false;
        }
      }
      all := true;
    }
  }

  ghost function FlightOf(f: InFlight?): Option<Flight>
    reads f, if f == null then {} else {f.results}
  {
    if f == null then None else Some(f.Value())
  }

  /** The table `m` as values. */
  ghost function Values(m: map<string, TargetState>): map<string, Slot>
    reads m.Values
  {
    map n | n in m :: m[n].Value()
  }

  /** No two names share a state object. */
  ghost predicate Separate(m: map<string, TargetState>) {
    forall a, b :: a in m && b in m && a != b ==> m[a] != m[b]
  }

  /** `built` holds the object `states` has for each name it has in common with it,
      and objects of its own for all others. */
  ghost predicate Shares(states: map<string, TargetState>, built: map<string, TargetState>) {
    && Separate(built)
    && (forall n :: n in built && n in states ==> built[n] == states[n])
    && (forall n, o :: n in built && n !in states && o in states ==> built[n] != states[o])
  }

  lemma SharesKept(states: map<string, TargetState>, built: map<string, TargetState>, n: string)
    requires Separate(states) && Shares(states, built) && n in states
    ensures Shares(states, built[n := states[n]])
  {
  }

  /** What can happen to a running manager. */
  datatype Command = Open | Probed(index: nat, ok: bool) | Close | Configure(cfg: Config) | Foreign(routes: seq<Route>)

  /** The step of the machine that a command stands for. */
  predicate Means(cmd: Command, e: Event) {
    match cmd
    case Open => e.Snapshot?
    case Probed(i, ok) => e == ProbeDone(i, ok)
    case Close => e.Apply?
    case Configure(c) => e.ReloadRequest? && e.cfg == c
    case Foreign(routes) => e == RouteEdit(FirstGateway(routes))
  }

  class Manager {
    const net: Codec
    const router: Router
    var cfg: Config
    var probers: map<string, Prober>
    var states: map<string, TargetState>
    var nextInterval: int
    var currentNexthop: string
    var finalActive: bool
    ghost var attempts: seq<Attempt>

    ghost predicate Valid()
      reads this
    {
      Separate(states)
    }

    /** The machine state this manager is in. */
    ghost function Abs(): Sys
      reads this, states.Values, router.kernel
    {
      Sys(cfg, probers, Values(states), nextInterval, currentNexthop, finalActive,
          FirstGateway(router.kernel.routes), attempts)
    }

    constructor Empty(net: Codec, cfg: Config, router: Router)
      ensures Valid() && this.net == net && this.router == router
      ensures Abs() == Sys(cfg, map[], map[], cfg.probeInterval, "", false, FirstGateway(router.kernel.routes), [])
      ensures states == map[]
    {
      this.net, this.router, this.cfg := net, router, cfg;
      probers, states, attempts := map[], map[], [];
      nextInterval, currentNexthop, finalActive := cfg.probeInterval, "", false;
    }

    /** Enters a target under its name. */
    method Add(t: Target, p: Prober)
      requires Valid()
      modifies this`probers, this`states
      ensures Valid()
      ensures t.name in states && fresh(states[t.name]) && states == old(states)[t.name := states[t.name]]
      ensures Abs() == old(Abs()).(probers := old(probers)[t.name := p],
                                   states := old(Values(states))[t.name := NewSlot(t)])
    {
      hide FirstGateway;
      ghost var before := Values(states);
      probers := probers[t.name := p];
      var st := new TargetState(t);
      states := states[t.name := st];
      assert Values(states) == before[t.name := NewSlot(t)];
    }

    /** Fails exactly when some prober cannot be built. */
    static method New(net: Codec, cfg: Config, router: Router) returns (m: Manager?)
      ensures (m == null) == Machine.New(net, cfg, FirstGateway(router.kernel.routes)).None?
      ensures m != null ==>
                && fresh(m) && (forall n :: n in m.states ==> fresh(m.states[n]))
                && m.Valid() && m.net == net && m.router == router
                && Some(m.Abs()) == Machine.New(net, cfg, FirstGateway(router.kernel.routes))
    {
      hide FirstGateway, NewProber, Retain, Overwrite, BuildProbers;
      RebuildStart(map[], cfg.targets);
      ProbersStart(net, cfg.targets, cfg.probeTimeout);
      var mgr := new Manager.Empty(net, cfg, router);
      for i := 0 to |cfg.targets|
        invariant fresh(mgr) && mgr.Valid() && forall n :: n in mgr.states ==> fresh(mgr.states[n])
        invariant forall k :: 0 <= k < i ==> NewProber(net, cfg.targets[k], cfg.probeTimeout).Some?
        invariant mgr.Abs() == Sys(cfg, BuildProbers(net, cfg.targets, cfg.probeTimeout, i),
                                   Retain(map[], cfg.targets, i), cfg.probeInterval, "", false,
                                   FirstGateway(router.kernel.routes), [])
      {
        var t := cfg.targets[i];
        var p := NewProber(net, t, cfg.probeTimeout);
        if p.None? {
          return null;
        }
        mgr.Add(t, p.value);
        RebuildStep(map[], cfg.targets, i);
        ProbersStep(net, cfg.targets, cfg.probeTimeout, i);
      }
      m := mgr;
    }

    // ---------- routing ----------

    method DesiredNexthop() returns (gateway: string)
      ensures gateway == Wanted(Abs())
    {
      var sorted := SortedTargets(cfg);
      ghost var live := Live(Values(states));
      for i := 0 to |sorted|
        invariant FirstLive(sorted, live) == FirstLive(sorted[i..], live)
      {
        var t := sorted[i];
        assert sorted[i..][1..] == sorted[i + 1..];
        if t.name in states && states[t.name].up {
          return t.ip;
        }
      }
      gateway := cfg.finalIP;
    }

    method RouteMatchesDesired() returns (matches: bool, ghost readFails: bool)
      modifies router.kernel`ops
      ensures matches <==> !readFails && InPlace(net, Abs())
      ensures readFails == router.kernel.fails(old(router.kernel.ops))
      ensures router.kernel.ops == old(router.kernel.ops) + 1
    {
      var desired := DesiredNexthop();
      var read := router.CurrentDefault();
      readFails := read.ReadFailed?;
      match read {
        case ReadFailed => matches := false;
        case Read(actual) =>
          matches := actual.Some? && net.render(actual.value) == desired;
      }
    }

    /** The routing operations since `from` cannot have failed. */
    ghost predicate Clear(from: nat)
      reads this, router.kernel
    {
      router.Smooth(from) && router.egress in router.kernel.links
    }

    /** The kernel's default is the gateway wanted now; or that gateway is no legal
        address and the table is still `before`. */
    ghost predicate RouteSafe(before: seq<Route>)
      reads this, states.Values, router.kernel
    {
      if net.Legal(Wanted(Abs())) then FirstGateway(router.kernel.routes) == net.parse(Wanted(Abs()))
      else router.kernel.routes == before
    }

    /** No call since the record was `was`, and the table is still `before`; or the
        last call, if it went through, has left a single default route, to its
        gateway and through the egress link. */
    ghost predicate Accounted(was: seq<Attempt>, before: seq<Route>)
      reads this, router.kernel
    {
      if |attempts| <= |was| then attempts == was && router.kernel.routes == before
      else
        var last := attempts[|attempts| - 1];
        last.ok ==>
          && router.egress in router.kernel.links
          && SoleDefault(router.kernel.routes, net.parse(last.gateway), router.kernel.links[router.egress])
    }

    method Reconcile() returns (ghost io: Io)
      modifies this`currentNexthop, this`finalActive, this`attempts
      modifies router.kernel`ops, router.kernel`routes
      ensures !io.readFails && Abs() == Machine.Reconcile(net, old(Abs()), io)
      ensures Clear(old(router.kernel.ops)) ==> !io.replaceFails
      ensures !net.Legal(Wanted(old(Abs()))) ==> router.kernel.routes == old(router.kernel.routes)
      ensures NonDefaults(router.kernel.routes) == NonDefaults(old(router.kernel.routes))
      ensures Accounted(old(attempts), old(router.kernel.routes))
      ensures router.kernel.ops >= old(router.kernel.ops)
    {
      hide Wanted, FirstGateway, IsDefaultV4, Select, Defaults, NonDefaults, Values;
      io := Io(false, false, None);
      var desired := DesiredNexthop();
      var gw := net.parse(desired);
      if gw.None? {
        return;
      }
      var isFinal := desired == cfg.finalIP;
      var ok := router.ReplaceDefault(gw);
      attempts := attempts + [Attempt(desired, ok)];
      if !ok {
        io := Io(false, true, FirstGateway(router.kernel.routes));
        return;
      }
      currentNexthop := desired;
      finalActive := isFinal;
    }

    /** Replaces the route if forced to or if it does not match. */
    method Converge(force: bool) returns (ghost io: Io)
      modifies this`currentNexthop, this`finalActive, this`attempts
      modifies router.kernel`ops, router.kernel`routes
      ensures Abs() == Machine.Converge(net, old(Abs()), force, io)
      ensures Clear(old(router.kernel.ops)) ==> Works(io)
      ensures net.Lawful() && Clear(old(router.kernel.ops)) ==> RouteSafe(old(router.kernel.routes))
      ensures NonDefaults(router.kernel.routes) == NonDefaults(old(router.kernel.routes))
      ensures Accounted(old(attempts), old(router.kernel.routes))
      ensures router.kernel.ops >= old(router.kernel.ops)
    {
      hide FirstGateway, NonDefaults, Wanted;
      ghost var s0 := Abs();
      io := Io(false, false, None);
      var needed := force;
      ghost var readFails := false;
      if !force {
        var matches;
        matches, readFails := RouteMatchesDesired();
        needed := !matches;
      }
      if needed {
        io := Reconcile();
        io := io.(readFails := readFails);
      }
      if net.Lawful() && Works(io) {
        ConvergeDichotomy(net, s0, force, io);
      }
    }

    // ---------- rounds ----------

    /** Gives one target in the table its result. */
    method Take(n: string, ok: bool) returns (contrary: bool, flipped: bool)
      requires Valid() && n in states
      modifies states[n]
      ensures var slot := old(states[n].Value());
              && Values(states) == old(Values(states))[n := Feed(slot, ok, cfg.stableRounds)]
              && (contrary <==> ok != slot.filter.up)
              && (flipped <==> Flips(slot.filter, ok, cfg.stableRounds))
    {
      hide Observe, Feed;
      ghost var before := Values(states);
      contrary, flipped := states[n].Absorb(ok, cfg.stableRounds);
      assert Values(states) == before[n := states[n].Value()];
    }

    /** The debounce loop over one round's results. */
    method AbsorbRound(targets: seq<Target>, oks: seq<bool>) returns (changed: bool, hasPending: bool)
      requires Valid() && |targets| == |oks|
      modifies states.Values
      ensures AbsorbAll(old(Values(states)), targets, oks, cfg.stableRounds)
                == Tally(Values(states), changed, hasPending)
    {
      hide Observe, Flips, Feed;
      ghost var s0 := Values(states);
      changed, hasPending := false, false;
      for i := 0 to |targets|
        invariant Machine.Absorb(s0, targets, oks, cfg.stableRounds, i) == Tally(Values(states), changed, hasPending)
      {
        var n := targets[i].name;
        if n in states {
          var contrary, flipped := Take(n, oks[i]);
          hasPending := hasPending || contrary;
          changed := changed || flipped;
        }
      }
    }

    /** Sets the wait before the next round. */
    method Pace(changed: bool, hasPending: bool)
      modifies this`nextInterval
      ensures nextInterval == NextInterval(old(nextInterval), cfg.probeInterval, hasPending, changed)
    {
      if hasPending && !changed {
        var half := Half(nextInterval);
        if half < MIN_INTERVAL {
          half := MIN_INTERVAL;
        }
        nextInterval := half;
      } else {
        nextInterval := cfg.probeInterval;
      }
    }

    method ApplyResults(targets: seq<Target>, oks: seq<bool>) returns (ghost io: Io)
      requires Valid() && |targets| == |oks|
      modifies this`nextInterval, this`currentNexthop, this`finalActive, this`attempts
      modifies states.Values, router.kernel`ops, router.kernel`routes
      ensures Valid() && states == old(states)
      ensures Abs() == Machine.ApplyResults(net, old(Abs()), targets, oks, io)
      ensures Clear(old(router.kernel.ops)) ==> Works(io)
      ensures net.Lawful() && Clear(old(router.kernel.ops)) ==> RouteSafe(old(router.kernel.routes))
      ensures NonDefaults(router.kernel.routes) == NonDefaults(old(router.kernel.routes))
      ensures Accounted(old(attempts), old(router.kernel.routes))
      ensures router.kernel.ops >= old(router.kernel.ops)
    {
      hide FirstGateway, NonDefaults, AbsorbAll, Machine.Converge, Wanted, InPlace, NextInterval;
      ghost var s0 := Abs();
      var changed, hasPending := AbsorbRound(targets, oks);
      Pace(changed, hasPending);
      assert Abs() == Settle(s0, AbsorbAll(s0.states, targets, oks, cfg.stableRounds));
      io := Converge(changed);
    }

    /** The snapshot that opens a round. */
    method Snapshot() returns (f: InFlight)
      ensures fresh(f) && fresh(f.results) && f.Value() == Launch(Abs())
      ensures f.targets == cfg.targets && f.probers == probers && f.timeout == cfg.probeTimeout
      ensures f.results.Length == |cfg.targets| && forall i :: 0 <= i < |cfg.targets| ==> f.results[i] == None
      ensures World(Abs(), FlightOf(f)) == Next(net, World(Abs(), None), Event.Snapshot)
    {
      f := new InFlight(cfg.targets, probers, cfg.probeTimeout);
    }

    /** The apply that closes a round, whatever happened to the manager since its
        snapshot. */
    method Finish(f: InFlight) returns (ghost io: Io)
      requires Valid() && Machine.Complete(f.Value())
      modifies this`nextInterval, this`currentNexthop, this`finalActive, this`attempts
      modifies states.Values, router.kernel`ops, router.kernel`routes
      ensures Valid() && states == old(states)
      ensures World(Abs(), None) == Next(net, World(old(Abs()), Some(old(f.Value()))), Event.Apply(io))
      ensures Clear(old(router.kernel.ops)) ==> Works(io)
      ensures net.Lawful() && Clear(old(router.kernel.ops)) ==> RouteSafe(old(router.kernel.routes))
      ensures NonDefaults(router.kernel.routes) == NonDefaults(old(router.kernel.routes))
      ensures Accounted(old(attempts), old(router.kernel.routes))
      ensures router.kernel.ops >= old(router.kernel.ops)
      ensures old(WorldInv(net, World(Abs(), Some(f.Value())))) ==> WorldInv(net, World(Abs(), None))
    {
      hide FirstGateway, NonDefaults, Machine.ApplyResults, Inv, WorldInv;
      ghost var flight := f.Value();
      ghost var w := World(Abs(), Some(flight));
      var oks := seq(f.results.Length, i requires 0 <= i < f.results.Length && f.results[i].Some? reads f.results => f.results[i].value);
      assert oks == Outcomes(flight);
      io := ApplyResults(f.targets, oks);
      if WorldInv(net, w) {
        NextKeepsInv(net, w, Event.Apply(io));
      }
    }

    /** One round with nothing in between: `outcome[i]` is what the prober of
        target `i` finds. */
    method ProbeOnce(outcome: seq<bool>) returns (ghost io: Io)
      requires Valid() && |outcome| == |cfg.targets|
      modifies this`nextInterval, this`currentNexthop, this`finalActive, this`attempts
      modifies states.Values, router.kernel`ops, router.kernel`routes
      ensures Valid() && states == old(states)
      ensures router.kernel.ops >= old(router.kernel.ops)
      ensures Abs() == Machine.ApplyResults(net, old(Abs()), cfg.targets, outcome, io)
      ensures Clear(old(router.kernel.ops)) ==> Works(io)
      ensures net.Lawful() && Clear(old(router.kernel.ops)) ==> RouteSafe(old(router.kernel.routes))
      ensures NonDefaults(router.kernel.routes) == NonDefaults(old(router.kernel.routes))
      ensures Accounted(old(attempts), old(router.kernel.routes))
    {
      hide Machine.ApplyResults, FirstGateway, NonDefaults;
      var f := Snapshot();
      for i := 0 to |outcome|
        modifies f.results
        invariant f.results.Length == |outcome|
        invariant forall k :: 0 <= k < i ==> f.results[k] == Some(outcome[k])
      {
        f.Complete(i, outcome[i]);
      }
      var oks := seq(|outcome|, i requires 0 <= i < |outcome| => outcome[i]);
      assert oks == outcome;
      io := ApplyResults(f.targets, oks);
    }

    /** The probing loop: a round at once, then a wait and a round, over and over.
        `outcomes[k]` is what the probers find in round `k`, `slept` the sum of the
        waits chosen. The loop is exactly a run of the machine, so what is proved
        of those holds here; in particular, if nothing fails and the last
        StableRounds rounds and more found just `alive` reachable, the kernel's
        default is the best target of `alive`, or the fallback, if that has a legal
        address. */
    method Run(outcomes: seq<seq<bool>>, ghost alive: set<string>) returns (slept: int, ghost rs: seq<Round>)
      requires Valid() && forall k :: 0 <= k < |outcomes| ==> |outcomes[k]| == |cfg.targets|
      modifies this`nextInterval, this`currentNexthop, this`finalActive, this`attempts
      modifies states.Values, router.kernel`ops, router.kernel`routes
      ensures Valid() && |rs| == |outcomes| && Fits(cfg, rs)
      ensures forall k :: 0 <= k < |rs| ==> rs[k].oks == outcomes[k] && rs[k].edit.None?
      ensures Abs() == At(net, old(Abs()), rs, |rs|)
      ensures slept == WaitSum(net, old(Abs()), rs, |rs|)
      ensures Clear(old(router.kernel.ops)) ==> forall k :: 0 <= k < |rs| ==> Works(rs[k].io)
      ensures NonDefaults(router.kernel.routes) == NonDefaults(old(router.kernel.routes))
      ensures Accounted(old(attempts), old(router.kernel.routes))
      ensures old(Inv(net, Abs())) && net.Lawful() && net.Legal(Desired(cfg, alive))
              && cfg.stableRounds <= |outcomes| && Steady(cfg, rs, alive) && Clear(old(router.kernel.ops)) ==>
                FirstGateway(router.kernel.routes) == net.parse(Desired(cfg, alive))
    {
      hide FirstGateway, NonDefaults, Machine.ApplyResults, Inv, Desired, WaitSum, At;
      ghost var s0, start := Abs(), router.kernel.ops;
      RunStart(net, s0);
      slept, rs := 0, [];
      for k := 0 to |outcomes|
        invariant Valid() && |rs| == k && Fits(cfg, rs) && states == old(states)
        invariant forall j :: 0 <= j < k ==> rs[j].oks == outcomes[j] && rs[j].edit.None?
        invariant s0.cfg == cfg && Abs() == At(net, s0, rs, k)
        invariant slept == WaitSum(net, s0, rs, k)
        invariant router.kernel.ops >= start
        invariant Clear(start) ==> forall j :: 0 <= j < k ==> Works(rs[j].io)
        invariant NonDefaults(router.kernel.routes) == NonDefaults(old(router.kernel.routes))
        invariant Accounted(old(attempts), old(router.kernel.routes))
      {
        ghost var io := ProbeOnce(outcomes[k]);
        ghost var r := Round(outcomes[k], None, io);
        RunNext(net, s0, rs, r);
        rs := rs + [r];
        slept := slept + nextInterval;
      }
      if Inv(net, s0) && net.Lawful() && net.Legal(Desired(cfg, alive))
         && cfg.stableRounds <= |outcomes| && Steady(cfg, rs, alive) && Clear(start) {
        InvHasRounds(net, s0);
        SelfStabilises(net, s0, rs, alive, |rs|);
      }
    }

    // ---------- reload ----------

    /** What the table still in use and the table being built hold after the first
        `k` targets. */
    ghost predicate Rebuilt(s0: map<string, Slot>, built: map<string, TargetState>, ts: seq<Target>, k: nat)
      requires k <= |ts|
      reads this, states.Values, built.Values
    {
      && Values(states) == Overwrite(s0, ts, k)
      && Values(built) == Retain(s0, ts, k)
      && Shares(states, built)
    }

    /** Takes over a target already in the table. */
    method Keep(t: Target, built: map<string, TargetState>) returns (next: map<string, TargetState>)
      requires Valid() && Shares(states, built) && t.name in states
      modifies states[t.name]
      ensures Shares(states, next) && next == built[t.name := states[t.name]]
      ensures var slot := old(states[t.name].Value()).(target := t);
              && Values(states) == old(Values(states))[t.name := slot]
              && Values(next) == old(Values(built))[t.name := slot]
    {
      hide FirstGateway;
      ghost var was, wasBuilt := Values(states), Values(built);
      var kept := states[t.name];
      SharesKept(states, built, t.name);
      assert forall n :: n in states && n != t.name ==> states[n] != kept;
      assert forall n :: n in built && n != t.name ==> built[n] != kept;
      hide Shares, Separate;
      kept.Retarget(t);
      next := built[t.name := kept];
      assert Values(states) == was[t.name := kept.Value()];
      assert Values(next) == wasBuilt[t.name := kept.Value()];
    }

    /** Takes over a target not in the table. */
    method Fresh(t: Target, built: map<string, TargetState>) returns (next: map<string, TargetState>)
      requires Shares(states, built) && t.name !in states
      ensures Shares(states, next) && t.name in next && fresh(next[t.name]) && next == built[t.name := next[t.name]]
      ensures Values(next) == Values(built)[t.name := NewSlot(t)]
    {
      var st := new TargetState(t);
      next := built[t.name := st];
      assert Values(next) == Values(built)[t.name := NewSlot(t)];
    }

    /** Takes over target `k`. */
    method Rebuild(ghost s0: map<string, Slot>, built: map<string, TargetState>, ts: seq<Target>, k: nat)
      returns (next: map<string, TargetState>)
      requires Valid() && k < |ts| && Rebuilt(s0, built, ts, k)
      modifies states.Values
      ensures Rebuilt(s0, next, ts, k + 1)
      ensures forall n :: n in next ==> (n in built && next[n] == built[n]) || next[n] in states.Values || fresh(next[n])
    {
      hide Overwrite, Retain, Shares;
      RebuildStep(s0, ts, k);
      var t := ts[k];
      if t.name in states {
        next := Keep(t, built);
      } else {
        next := Fresh(t, built);
      }
    }

    /** Builds the tables of a new configuration, up to the first target whose
        prober cannot be built. */
    method BuildTables(c: Config) returns (count: nat, newProbers: map<string, Prober>, newStates: map<string, TargetState>)
      requires Valid()
      modifies states.Values
      ensures count == Buildable(net, c.targets, c.probeTimeout)
      ensures newProbers == BuildProbers(net, c.targets, c.probeTimeout, count)
      ensures Rebuilt(old(Values(states)), newStates, c.targets, count)
      ensures forall n :: n in newStates ==> newStates[n] in states.Values || fresh(newStates[n])
    {
      hide NewProber, Overwrite, Retain, BuildProbers, Buildable;
      ProbersStart(net, c.targets, c.probeTimeout);
      ghost var s0 := Values(states);
      newProbers, newStates := map[], map[];
      RebuildStart(s0, c.targets);
      assert Rebuilt(s0, newStates, c.targets, 0);
      hide Rebuilt, Values, Shares, Separate;
      for i := 0 to |c.targets|
        invariant forall k :: 0 <= k < i ==> NewProber(net, c.targets[k], c.probeTimeout).Some?
        invariant newProbers == BuildProbers(net, c.targets, c.probeTimeout, i)
        invariant Rebuilt(s0, newStates, c.targets, i)
        invariant forall n :: n in newStates ==> newStates[n] in states.Values || fresh(newStates[n])
      {
        var p := NewProber(net, c.targets[i], c.probeTimeout);
        if p.None? {
          count := i;
          BuildableUpTo(net, c.targets, c.probeTimeout, i);
          return;
        }
        newProbers := newProbers[c.targets[i].name := p.value];
        ProbersStep(net, c.targets, c.probeTimeout, i);
        newStates := Rebuild(s0, newStates, c.targets, i);
      }
      count := |c.targets|;
      BuildableUpTo(net, c.targets, c.probeTimeout, count);
    }

    /** Puts the tables built for `c` into use. */
    method Install(c: Config, newProbers: map<string, Prober>, newStates: map<string, TargetState>)
      requires Buildable(net, c.targets, c.probeTimeout) == |c.targets|
      requires newProbers == BuildProbers(net, c.targets, c.probeTimeout, |c.targets|)
      requires Separate(newStates)
      modifies this`cfg, this`probers, this`states, this`nextInterval
      ensures Valid() && states == newStates
      ensures Abs() == old(Abs()).(cfg := c, probers := newProbers, states := Values(newStates), nextInterval := c.probeInterval)
    {
      cfg := c;
      probers := newProbers;
      states := newStates;
      nextInterval := c.probeInterval;
    }

    /** Applies a new configuration. Fails exactly when one of its probers cannot
        be built. */
    method Reload(c: Config) returns (ok: bool, ghost io: Io)
      requires Valid()
      modifies this, states.Values, router.kernel`ops, router.kernel`routes
      ensures Valid()
      ensures ok <==> Buildable(net, c.targets, c.probeTimeout) == |c.targets|
      ensures Abs() == Machine.Reload(net, old(Abs()), c, io)
      ensures Clear(old(router.kernel.ops)) ==> Works(io)
      ensures net.Lawful() && Clear(old(router.kernel.ops)) && ok ==> RouteSafe(old(router.kernel.routes))
      ensures NonDefaults(router.kernel.routes) == NonDefaults(old(router.kernel.routes))
      ensures Accounted(old(attempts), old(router.kernel.routes))
      ensures forall n :: n in states ==> states[n] in old(states.Values) || fresh(states[n])
      ensures router.kernel.ops >= old(router.kernel.ops)
    {
      hide FirstGateway, NonDefaults, NewProber, Machine.Converge, Overwrite, Retain, BuildProbers, InPlace, Wanted;
      io := Io(false, false, None);
      ghost var s0 := Abs();
      var count, newProbers, newStates := BuildTables(c);
      if count < |c.targets| {
        return false, io;
      }
      Install(c, newProbers, newStates);
      assert Abs() == Adopt(net, s0, c);
      io := Converge(false);
      ok := true;
    }

    /** The one way a configuration reaches a running manager: validated first. It
        is accepted exactly when it is well formed, is then never refused by the
        reload, and either way this is one step of the machine that keeps what
        every interleaving keeps, for the round in flight too. */
    method ApplyConfig(c: Config, ghost flight: Option<Flight>) returns (accepted: bool, ghost io: Io)
      requires Valid()
      modifies this, states.Values, router.kernel`ops, router.kernel`routes
      ensures Valid()
      ensures accepted <==> WellFormed(net, c)
      ensures World(Abs(), flight) == Next(net, World(old(Abs()), flight), ReloadRequest(c, io))
      ensures Clear(old(router.kernel.ops)) ==> Works(io)
      ensures net.Lawful() && Clear(old(router.kernel.ops)) && accepted ==> RouteSafe(old(router.kernel.routes))
      ensures NonDefaults(router.kernel.routes) == NonDefaults(old(router.kernel.routes))
      ensures Accounted(old(attempts), old(router.kernel.routes))
      ensures forall n :: n in states ==> states[n] in old(states.Values) || fresh(states[n])
      ensures router.kernel.ops >= old(router.kernel.ops)
      ensures old(WorldInv(net, World(Abs(), flight))) ==> WorldInv(net, World(Abs(), flight))
    {
      hide FirstGateway, NonDefaults, Machine.Reload, Inv, WorldInv, WellFormed;
      io := Io(false, false, None);
      ghost var w := World(Abs(), flight);
      var errs := Validate(net, c);
      accepted := |errs| == 0;
      if accepted {
        ValidIsBuildable(net, c);
        accepted, io := Reload(c);
      }
      if WorldInv(net, w) {
        NextKeepsInv(net, w, ReloadRequest(c, io));
      }
    }

    // ---------- everything that can happen ----------

    /** What one command does, as one step of the machine. `f` is the round in
        flight; an apply waits for its last result. */
    method Do(cmd: Command, f: InFlight?) returns (next: InFlight?, ghost e: Event)
      requires Valid() && (f != null ==> f.results.Length == |f.targets|)
      modifies this, states.Values, router.kernel`ops, router.kernel`routes
      modifies if f == null then {} else {f.results}
      ensures Valid() && (next != null ==> next.results.Length == |next.targets|)
      ensures next == null || next == f || (fresh(next) && fresh(next.results))
      ensures forall n :: n in states ==> states[n] in old(states.Values) || fresh(states[n])
      ensures router.kernel.ops >= old(router.kernel.ops)
      ensures Means(cmd, e) && World(Abs(), FlightOf(next)) == Next(net, World(old(Abs()), old(FlightOf(f))), e)
      ensures Clear(old(router.kernel.ops)) ==> Working(e)
    {
      hide FirstGateway, NonDefaults, Machine.ApplyResults, Machine.Reload, WellFormed, Inv;
      next := f;
      match cmd {
        case Open =>
          e := Event.Snapshot;
          if f == null {
            next := Snapshot();
          }
        case Probed(i, ok) =>
          e := ProbeDone(i, ok);
          if f != null && i < f.results.Length && f.results[i].None? {
            f.Complete(i, ok);
          }
        case Close =>
          e := Event.Apply(Io(false, false, None));
          if f != null {
            var all := f.Finished();
            if all {
              ghost var io := Finish(f);
              e := Event.Apply(io);
              next := null;
            }
          }
        case Configure(c) =>
          var accepted;
          ghost var io;
          accepted, io := ApplyConfig(c, FlightOf(f));
          e := ReloadRequest(c, io);
        case Foreign(routes) =>
          router.kernel.Overwrite(routes);
          e := RouteEdit(FirstGateway(routes));
      }
    }

    /** Any commands in any order: rounds opened, their probes finishing, rounds
        closed, configurations posted and the route table edited by others in
        between. The objects go exactly through a run of the machine, so whatever
        holds of all those holds here. */
    method Drive(cmds: seq<Command>) returns (f: InFlight?, ghost es: seq<Event>)
      requires Valid()
      modifies this, states.Values, router.kernel`ops, router.kernel`routes
      ensures Valid() && |es| == |cmds| && forall k :: 0 <= k < |es| ==> Means(cmds[k], es[k])
      ensures World(Abs(), FlightOf(f)) == Exec(net, World(old(Abs()), None), es)
      ensures Clear(old(router.kernel.ops)) ==> forall k :: 0 <= k < |es| ==> Working(es[k])
      ensures old(Inv(net, Abs())) ==> WorldInv(net, World(Abs(), FlightOf(f)))
    {
      hide FirstGateway, Inv, Next, WorldInv, Means, Working;
      ghost var w0, start := World(Abs(), None), router.kernel.ops;
      f, es := null, [];
      for k := 0 to |cmds|
        invariant Valid() && (f != null ==> fresh(f) && fresh(f.results) && f.results.Length == |f.targets|)
        invariant forall n :: n in states ==> states[n] in old(states.Values) || fresh(states[n])
        invariant router.kernel.ops >= start
        invariant |es| == k && forall j :: 0 <= j < k ==> Means(cmds[j], es[j])
        invariant World(Abs(), FlightOf(f)) == Exec(net, w0, es)
        invariant Clear(start) ==> forall j :: 0 <= j < k ==> Working(es[j])
      {
        ghost var e;
        f, e := Do(cmds[k], f);
        ExecLast(net, w0, es, e);
        es := es + [e];
      }
      if Inv(net, w0.sys) {
        QuietWorld(net, w0);
        ExecKeepsInv(net, w0, es);
      }
    }

    /** One entry for each name in the table, in no particular order, and the
        gateway and flag as reported. */
    method Status() returns (targets: seq<TargetStatus>, active: string, final: bool, ghost order: seq<string>)
      ensures |targets| == |order| == |states| && (forall n :: n in order <==> n in states)
      ensures forall i :: 0 <= i < |order| ==>
                && order[i] in states
                && var st, shown := states[order[i]], targets[i];
                   && shown.name == st.target.name && shown.ip == st.target.ip && shown.weight == st.target.weight
                   && shown.probe == st.target.probe && shown.up == st.up
      ensures active == currentNexthop && final == finalActive
    {
      targets, order := [], [];
      var todo := states.Keys;
      while todo != {}
        invariant todo <= states.Keys
        invariant |targets| == |order| == |states| - |todo|
        invariant forall n :: n in order <==> n in states && n !in todo
        invariant forall i :: 0 <= i < |order| ==>
                    && order[i] in states
                    && var st := states[order[i]];
                       targets[i] == TargetStatus(st.target.name, st.target.ip, st.target.weight, st.target.probe, st.up)
        decreases todo
      {
        var n :| n in todo;
        var st := states[n];
        targets := targets + [TargetStatus(st.target.name, st.target.ip, st.target.weight, st.target.probe, st.up)];
        order := order + [n];
        todo := todo - {n};
      }
      active, final := currentNexthop, finalActive;
    }
  }

  lemma QuietWorld(net: Codec, w: World)
    requires Inv(net, w.sys) && w.flight.None?
    ensures WorldInv(net, w)
  {
  }

  lemma RunStart(net: Codec, s: Sys)
    ensures At(net, s, [], 0) == s && WaitSum(net, s, [], 0) == 0
  {
  }

  lemma RunNext(net: Codec, s: Sys, rs: seq<Round>, r: Round)
    requires Fits(s.cfg, rs) && |r.oks| == |s.cfg.targets| && r.edit.None?
    ensures Fits(s.cfg, rs + [r])
    ensures At(net, s, rs + [r], |rs| + 1)
              == Machine.ApplyResults(net, At(net, s, rs, |rs|), s.cfg.targets, r.oks, r.io)
    ensures WaitSum(net, s, rs + [r], |rs| + 1)
              == WaitSum(net, s, rs, |rs|) + At(net, s, rs + [r], |rs| + 1).nextInterval
  {
    hide Machine.ApplyResults;
    AtPrefix(net, s, rs, [r], |rs|);
    WaitSumPrefix(net, s, rs, [r], |rs|);
  }

  lemma RebuildStart(s0: map<string, Slot>, ts: seq<Target>)
    ensures Overwrite(s0, ts, 0) == s0 && Retain(s0, ts, 0) == map[]
  {
  }

  lemma BuildableUpTo(net: Codec, ts: seq<Target>, timeout: int, n: nat)
    requires n <= |ts| && forall i :: 0 <= i < n ==> NewProber(net, ts[i], timeout).Some?
    requires n < |ts| ==> NewProber(net, ts[n], timeout).None?
    ensures Buildable(net, ts, timeout) == n
  {
    hide NewProber;
  }

  lemma ProbersStart(net: Codec, ts: seq<Target>, timeout: int)
    ensures BuildProbers(net, ts, timeout, 0) == map[]
  {
  }

  lemma ProbersStep(net: Codec, ts: seq<Target>, timeout: int, k: nat)
    requires k < |ts| && forall i :: 0 <= i < k + 1 ==> NewProber(net, ts[i], timeout).Some?
    ensures BuildProbers(net, ts, timeout, k + 1)
              == BuildProbers(net, ts, timeout, k)[ts[k].name := NewProber(net, ts[k], timeout).value]
  {
    hide NewProber;
  }

  lemma RebuildStep(s0: map<string, Slot>, ts: seq<Target>, k: nat)
    requires k < |ts|
    ensures var m, m', r, r', t := Overwrite(s0, ts, k), Overwrite(s0, ts, k + 1), Retain(s0, ts, k), Retain(s0, ts, k + 1), ts[k];
            && m.Keys == s0.Keys
            && (t.name in s0 ==> m' == m[t.name := m[t.name].(target := t)] && r' == r[t.name := m[t.name].(target := t)])
            && (t.name !in s0 ==> m' == m && r' == r[t.name := NewSlot(t)])
  {
  }
}
