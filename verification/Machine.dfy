/** The control loop as a pure transition system: what one locked section of the
    manager does to its state, and what any interleaving of them keeps
    (internal/state/state.go). */
module Machine {
  import opened Prelude
  import opened Addresses
  import opened Configuration
  import opened Selection
  import opened Debounce
  import opened Pacing

  /** The state of one target. `log` is a history variable: every result applied
      since the entry was created, with the StableRounds in force then. */
  datatype Slot = Slot(target: Target, filter: Filter, log: seq<Sample>)

  function NewSlot(t: Target): Slot {
    Slot(t, FRESH, [])
  }

  /** One call of ReplaceDefault, and whether it succeeded. */
  datatype Attempt = Attempt(gateway: string, ok: bool)

  /** The manager together with what CurrentDefault would read from the kernel.
      `attempts` is a history variable. */
  datatype Sys = Sys(
    cfg: Config, probers: map<string, Prober>, states: map<string, Slot>,
    nextInterval: int, currentNexthop: string, finalActive: bool,
    kernelGateway: Option<IPv4>, attempts: seq<Attempt>)

  /** How the route operations of one locked section go. A failed replacement
      leaves the kernel with the gateway `residue`. */
  datatype Io = Io(readFails: bool, replaceFails: bool, residue: Option<IPv4>)

  predicate Works(io: Io) {
    !io.readFails && !io.replaceFails
  }

  // ---------- routing ----------

  function Live(states: map<string, Slot>): set<string> {
    set n | n in states && states[n].filter.up
  }

  /** desiredNexthop */
  function Wanted(s: Sys): string {
    Desired(s.cfg, Live(s.states))
  }

  /** routeMatchesDesiredLocked, when the read succeeds */
  predicate InPlace(net: Codec, s: Sys) {
    s.kernelGateway.Some? && net.render(s.kernelGateway.value) == Wanted(s)
  }

  /** reconcileRouteLocked */
  function Reconcile(net: Codec, s: Sys, io: Io): Sys {
    var want := Wanted(s);
    match net.parse(want)
    case None => s
    case Some(gw) =>
      if io.replaceFails then
        s.(kernelGateway := io.residue, attempts := s.attempts + [Attempt(want, false)])
      else
        s.(kernelGateway := Some(gw), attempts := s.attempts + [Attempt(want, true)],
           currentNexthop := want, finalActive := want == s.cfg.finalIP)
  }

  function Converge(net: Codec, s: Sys, force: bool, io: Io): Sys {
    if force || io.readFails || !InPlace(net, s) then Reconcile(net, s, io) else s
  }

  // ---------- one round ----------

  datatype Tally = Tally(states: map<string, Slot>, changed: bool, hasPending: bool)

  function Feed(slot: Slot, ok: bool, rounds: int): Slot {
    Slot(slot.target, Observe(slot.filter, ok, rounds), slot.log + [Sample(ok, rounds)])
  }

  /** The loop of applyResults after its first `k` iterations. */
  function Absorb(states: map<string, Slot>, targets: seq<Target>, oks: seq<bool>, rounds: int, k: nat): (t: Tally)
    requires k <= |targets| == |oks|
    ensures t.states.Keys == states.Keys
  {
    if k == 0 then Tally(states, false, false)
    else
      var t := Absorb(states, targets, oks, rounds, k - 1);
      var n, ok := targets[k - 1].name, oks[k - 1];
      if n !in t.states then t
      else
        var slot := t.states[n];
        Tally(t.states[n := Feed(slot, ok, rounds)],
              t.changed || Flips(slot.filter, ok, rounds),
              t.hasPending || ok != slot.filter.up)
  }

  function AbsorbAll(states: map<string, Slot>, targets: seq<Target>, oks: seq<bool>, rounds: int): Tally
    requires |targets| == |oks|
  {
    Absorb(states, targets, oks, rounds, |targets|)
  }

  /** The state after the debounce and pacing part of applyResults. */
  function Settle(s: Sys, t: Tally): Sys {
    s.(states := t.states,
       nextInterval := NextInterval(s.nextInterval, s.cfg.probeInterval, t.hasPending, t.changed))
  }

  function ApplyResults(net: Codec, s: Sys, targets: seq<Target>, oks: seq<bool>, io: Io): Sys
    requires |targets| == |oks|
  {
    var t := AbsorbAll(s.states, targets, oks, s.cfg.stableRounds);
    Converge(net, Settle(s, t), t.changed, io)
  }

  // ---------- construction and reload ----------

  /** How many leading targets probe.New accepts. */
  function Buildable(net: Codec, ts: seq<Target>, timeout: int): (b: nat)
    ensures b <= |ts|
    ensures forall i :: 0 <= i < b ==> NewProber(net, ts[i], timeout).Some?
    ensures b < |ts| ==> NewProber(net, ts[b], timeout).None?
  {
    if ts == [] || NewProber(net, ts[0], timeout).None? then 0
    else 1 + Buildable(net, ts[1..], timeout)
  }

  function BuildProbers(net: Codec, ts: seq<Target>, timeout: int, k: nat): (m: map<string, Prober>)
    requires k <= |ts|
    requires forall i :: 0 <= i < k ==> NewProber(net, ts[i], timeout).Some?
  {
    if k == 0 then map[]
    else BuildProbers(net, ts, timeout, k - 1)[ts[k - 1].name := NewProber(net, ts[k - 1], timeout).value]
  }

  /** The new state table: old entries keep their debounce state and take the new
      target, other targets start fresh. */
  function Retain(states: map<string, Slot>, ts: seq<Target>, k: nat): map<string, Slot>
    requires k <= |ts|
  {
    if k == 0 then map[]
    else
      var t := ts[k - 1];
      Retain(states, ts, k - 1)[t.name := if t.name in states then states[t.name].(target := t) else NewSlot(t)]
  }

  /** What the first `k` iterations of Reload do to the table still in use. */
  function Overwrite(states: map<string, Slot>, ts: seq<Target>, k: nat): (m: map<string, Slot>)
    requires k <= |ts|
    ensures m.Keys == states.Keys
    ensures forall n :: n in m ==> m[n].filter == states[n].filter && m[n].log == states[n].log
  {
    if k == 0 then states
    else
      var m := Overwrite(states, ts, k - 1);
      var t := ts[k - 1];
      if t.name in m then m[t.name := m[t.name].(target := t)] else m
  }

  /** New, over a kernel whose default gateway is `gateway`. */
  function New(net: Codec, c: Config, gateway: Option<IPv4>): Option<Sys> {
    if Buildable(net, c.targets, c.probeTimeout) < |c.targets| then None
    else
      Some(Sys(c, BuildProbers(net, c.targets, c.probeTimeout, |c.targets|),
               Retain(map[], c.targets, |c.targets|), c.probeInterval, "", false, gateway, []))
  }

  /** Reload of a configuration all of whose probers can be built, before routing. */
  function Adopt(net: Codec, s: Sys, c: Config): Sys
    requires Buildable(net, c.targets, c.probeTimeout) == |c.targets|
  {
    s.(cfg := c, probers := BuildProbers(net, c.targets, c.probeTimeout, |c.targets|),
       states := Retain(s.states, c.targets, |c.targets|), nextInterval := c.probeInterval)
  }

  function Reload(net: Codec, s: Sys, c: Config, io: Io): Sys {
    var b := Buildable(net, c.targets, c.probeTimeout);
    if b < |c.targets| then s.(states := Overwrite(s.states, c.targets, b))
    else Converge(net, Adopt(net, s, c), false, io)
  }

  // ---------- interleavings ----------

  /** A round between its snapshot and its apply. `timeout` limits each probe. */
  datatype Flight = Flight(
    targets: seq<Target>, probers: map<string, Prober>, timeout: int, results: seq<Option<bool>>)

  datatype World = World(sys: Sys, flight: Option<Flight>)

  datatype Event =
    | Snapshot
    | ProbeDone(index: nat, ok: bool)
    | Apply(io: Io)
    | ReloadRequest(cfg: Config, io: Io)
    | RouteEdit(gateway: Option<IPv4>)

  /** The route operations of the event succeed. */
  predicate Working(e: Event) {
    match e
    case Apply(io) => Works(io)
    case ReloadRequest(_, io) => Works(io)
    case _ => true
  }

  predicate Complete(f: Flight) {
    |f.results| == |f.targets| && forall i :: 0 <= i < |f.results| ==> f.results[i].Some?
  }

  function Outcomes(f: Flight): (oks: seq<bool>)
    requires Complete(f)
    ensures |oks| == |f.targets|
  {
    seq(|f.results|, i requires 0 <= i < |f.results| => f.results[i].value)
  }

  function Launch(s: Sys): Flight {
    Flight(s.cfg.targets, s.probers, s.cfg.probeTimeout, seq(|s.cfg.targets|, _ => None))
  }

  /** One atomic step. An event that cannot happen now changes nothing; a reload
      request goes through validation first, as every caller of Reload does. */
  function Next(net: Codec, w: World, e: Event): World {
    match e
    case Snapshot =>
      if w.flight.None? then w.(flight := Some(Launch(w.sys))) else w
    case ProbeDone(i, ok) =>
      if w.flight.Some? && i < |w.flight.value.results| && w.flight.value.results[i].None?
      then w.(flight := Some(w.flight.value.(results := w.flight.value.results[i := Some(ok)])))
      else w
    case Apply(io) =>
      if w.flight.Some? && Complete(w.flight.value)
      then World(ApplyResults(net, w.sys, w.flight.value.targets, Outcomes(w.flight.value), io), None)
      else w
    case ReloadRequest(c, io) =>
      if WellFormed(net, c) then w.(sys := Reload(net, w.sys, c, io)) else w
    case RouteEdit(g) =>
      w.(sys := w.sys.(kernelGateway := g))
  }

  function Exec(net: Codec, w: World, es: seq<Event>): World
    decreases |es|
  {
    if es == [] then w else Exec(net, Next(net, w, es[0]), es[1..])
  }

  // ---------- what a round does, target by target ----------

  lemma {:induction false} AbsorbAbsent(states: map<string, Slot>, targets: seq<Target>, oks: seq<bool>, rounds: int, k: nat, n: string)
    requires k <= |targets| == |oks|
    requires n in states && forall i :: 0 <= i < k ==> targets[i].name != n
    ensures Absorb(states, targets, oks, rounds, k).states[n] == states[n]
  {
    if k > 0 {
      AbsorbAbsent(states, targets, oks, rounds, k - 1, n);
    }
  }

  lemma {:induction false} AbsorbPresent(states: map<string, Slot>, targets: seq<Target>, oks: seq<bool>, rounds: int, k: nat, i: nat)
    requires i < k <= |targets| == |oks| && DistinctNames(targets)
    requires targets[i].name in states
    ensures Absorb(states, targets, oks, rounds, k).states[targets[i].name]
              == Feed(states[targets[i].name], oks[i], rounds)
  {
    if i == k - 1 {
      AbsorbAbsent(states, targets, oks, rounds, k - 1, targets[i].name);
    } else {
      AbsorbPresent(states, targets, oks, rounds, k - 1, i);
      assert targets[i].name != targets[k - 1].name;
    }
  }

  /** Target `i` of the round turns over. */
  predicate TurnsOver(states: map<string, Slot>, targets: seq<Target>, oks: seq<bool>, rounds: int, i: nat)
    requires i < |targets| == |oks|
  {
    targets[i].name in states && Flips(states[targets[i].name].filter, oks[i], rounds)
  }

  /** Result `i` of the round contradicts the debounced state. */
  predicate Contrary(states: map<string, Slot>, targets: seq<Target>, oks: seq<bool>, i: nat)
    requires i < |targets| == |oks|
  {
    targets[i].name in states && oks[i] != states[targets[i].name].filter.up
  }

  lemma {:induction false} AbsorbFlags(states: map<string, Slot>, targets: seq<Target>, oks: seq<bool>, rounds: int, k: nat)
    requires k <= |targets| == |oks| && DistinctNames(targets)
    ensures Absorb(states, targets, oks, rounds, k).changed <==>
              exists i: nat :: i < k && TurnsOver(states, targets, oks, rounds, i)
    ensures Absorb(states, targets, oks, rounds, k).hasPending <==>
              exists i: nat :: i < k && Contrary(states, targets, oks, i)
  {
    if k > 0 {
      AbsorbFlags(states, targets, oks, rounds, k - 1);
      var n := targets[k - 1].name;
      if n in states {
        AbsorbAbsent(states, targets, oks, rounds, k - 1, n);
      }
      assert TurnsOver(states, targets, oks, rounds, k - 1) ==>
          Absorb(states, targets, oks, rounds, k).changed;
      assert Contrary(states, targets, oks, k - 1) ==>
          Absorb(states, targets, oks, rounds, k).hasPending;
    }
  }

  /** A round feeds each of its targets still in the table exactly its own
      result, touches no other entry, and reports a flip (a contrary result)
      exactly when some target has one. */
  lemma RoundPointwise(states: map<string, Slot>, targets: seq<Target>, oks: seq<bool>, rounds: int)
    requires |targets| == |oks| && DistinctNames(targets)
    ensures var t := AbsorbAll(states, targets, oks, rounds);
            && (forall n :: n in states && n !in Names(targets) ==> t.states[n] == states[n])
            && (forall i :: 0 <= i < |targets| && targets[i].name in states ==>
                  t.states[targets[i].name] == Feed(states[targets[i].name], oks[i], rounds))
            && (t.changed <==> exists i: nat :: i < |targets| && TurnsOver(states, targets, oks, rounds, i))
            && (t.hasPending <==> exists i: nat :: i < |targets| && Contrary(states, targets, oks, i))
  {
    forall n | n in states && n !in Names(targets)
      ensures AbsorbAll(states, targets, oks, rounds).states[n] == states[n]
    {
      AbsorbAbsent(states, targets, oks, rounds, |targets|, n);
    }
    forall i | 0 <= i < |targets| && targets[i].name in states
      ensures AbsorbAll(states, targets, oks, rounds).states[targets[i].name]
                == Feed(states[targets[i].name], oks[i], rounds)
    {
      AbsorbPresent(states, targets, oks, rounds, |targets|, i);
    }
    AbsorbFlags(states, targets, oks, rounds, |targets|);
  }
}
