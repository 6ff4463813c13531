/** A round does not depend on the order in which its probes finish, nor on the
    order in which its results are applied. */
module Ordering {
  import opened Prelude
  import opened Addresses
  import opened Configuration
  import opened Machine

  lemma {:induction false} ExecConcat(net: Codec, w: World, a: seq<Event>, b: seq<Event>)
    ensures Exec(net, w, a + b) == Exec(net, Exec(net, w, a), b)
    decreases |a|
  {
    if a == [] {
      assert a + b == b;
    } else {
      assert (a + b)[1..] == a[1..] + b;
      ExecConcat(net, Next(net, w, a[0]), a[1..], b);
    }
  }

  lemma ExecLast(net: Codec, w: World, es: seq<Event>, e: Event)
    ensures Exec(net, w, es + [e]) == Next(net, Exec(net, w, es), e)
  {
    hide Next;
    var w' := Exec(net, w, es);
    ExecConcat(net, w, es, [e]);
    assert Exec(net, Next(net, w', e), [e][1..]) == Next(net, w', e);
  }

  predicate InRange(order: seq<nat>, n: nat) {
    forall j :: 0 <= j < |order| ==> order[j] < n
  }

  /** The probes finish in the order `order`, each with its own outcome. */
  function Completions(order: seq<nat>, oks: seq<bool>): (es: seq<Event>)
    requires InRange(order, |oks|)
  {
    seq(|order|, j requires 0 <= j < |order| => ProbeDone(order[j], oks[order[j]]))
  }

  /** Every result collected so far is the outcome of its own target. */
  predicate Partial(results: seq<Option<bool>>, oks: seq<bool>) {
    |results| == |oks| && forall i :: 0 <= i < |oks| ==> results[i].None? || results[i] == Some(oks[i])
  }

  lemma {:induction false} CompletionsFill(net: Codec, s: Sys, f: Flight, order: seq<nat>, oks: seq<bool>)
    requires InRange(order, |oks|)
    requires Partial(f.results, oks)
    ensures var w := Exec(net, World(s, Some(f)), Completions(order, oks));
            && w.sys == s && w.flight.Some?
            && w.flight.value.targets == f.targets
            && Partial(w.flight.value.results, oks)
            && forall i :: 0 <= i < |oks| && (i in order || f.results[i].Some?) ==> w.flight.value.results[i].Some?
    decreases |order|
  {
    if order != [] {
      var es := Completions(order, oks);
      assert es[1..] == Completions(order[1..], oks);
      var i := order[0];
      var f' := if f.results[i].None? then f.(results := f.results[i := Some(oks[i])]) else f;
      assert Next(net, World(s, Some(f)), es[0]) == World(s, Some(f'));
      CompletionsFill(net, s, f', order[1..], oks);
    }
  }

  /** The events of one uninterrupted round. */
  function RoundEvents(order: seq<nat>, oks: seq<bool>, io: Io): seq<Event>
    requires InRange(order, |oks|)
  {
    [Snapshot] + Completions(order, oks) + [Apply(io)]
  }

  /** Whatever order the parallel probes finish in, the round is the same. */
  lemma CompletionOrderIrrelevant(net: Codec, s: Sys, order: seq<nat>, oks: seq<bool>, io: Io)
    requires |oks| == |s.cfg.targets|
    requires InRange(order, |oks|)
    requires forall i: nat :: i < |oks| ==> i in order
    ensures Exec(net, World(s, None), RoundEvents(order, oks, io))
              == World(ApplyResults(net, s, s.cfg.targets, oks, io), None)
  {
    var w0 := World(s, None);
    var w1 := World(s, Some(Launch(s)));
    var middle := Completions(order, oks);
    assert Exec(net, w0, [Snapshot]) == w1 by {
      assert Next(net, w0, Snapshot) == w1;
    }
    ExecLast(net, w0, [Snapshot] + middle, Apply(io));
    ExecConcat(net, w0, [Snapshot], middle);
    CompletionsFill(net, s, Launch(s), order, oks);
    var w2 := Exec(net, w1, middle);
    var f := w2.flight.value;
    assert Complete(f) && Outcomes(f) == oks;
  }

  /** The results of a round, each next to its target. */
  function Paired(targets: seq<Target>, oks: seq<bool>): (ps: seq<(Target, bool)>)
    requires |targets| == |oks|
  {
    seq(|targets|, i requires 0 <= i < |targets| => (targets[i], oks[i]))
  }

  lemma FindPair(ts: seq<Target>, os: seq<bool>, ts': seq<Target>, os': seq<bool>, i: nat) returns (j: nat)
    requires |ts| == |os| && |ts'| == |os'| && i < |ts|
    requires multiset(Paired(ts, os)) == multiset(Paired(ts', os'))
    ensures j < |ts'| && ts'[j] == ts[i] && os'[j] == os[i]
  {
    var p := Paired(ts, os)[i];
    assert p in multiset(Paired(ts, os));
    assert p in multiset(Paired(ts', os'));
    assert p in Paired(ts', os');
    j :| 0 <= j < |ts'| && Paired(ts', os')[j] == p;
  }

  lemma SameFlags(states: map<string, Slot>, ts: seq<Target>, os: seq<bool>, ts': seq<Target>, os': seq<bool>, rounds: int)
    requires |ts| == |os| && |ts'| == |os'| && DistinctNames(ts) && DistinctNames(ts')
    requires multiset(Paired(ts, os)) == multiset(Paired(ts', os'))
    ensures AbsorbAll(states, ts, os, rounds).changed ==> AbsorbAll(states, ts', os', rounds).changed
    ensures AbsorbAll(states, ts, os, rounds).hasPending ==> AbsorbAll(states, ts', os', rounds).hasPending
  {
    AbsorbFlags(states, ts, os, rounds, |ts|);
    AbsorbFlags(states, ts', os', rounds, |ts'|);
    if AbsorbAll(states, ts, os, rounds).changed {
      var i: nat :| i < |ts| && TurnsOver(states, ts, os, rounds, i);
      var j := FindPair(ts, os, ts', os', i);
      assert TurnsOver(states, ts', os', rounds, j);
    }
    if AbsorbAll(states, ts, os, rounds).hasPending {
      var i: nat :| i < |ts| && Contrary(states, ts, os, i);
      var j := FindPair(ts, os, ts', os', i);
      assert Contrary(states, ts', os', j);
    }
  }

  lemma SameEntry(states: map<string, Slot>, ts: seq<Target>, os: seq<bool>, ts': seq<Target>, os': seq<bool>, rounds: int, n: string)
    requires |ts| == |os| && |ts'| == |os'| && DistinctNames(ts) && DistinctNames(ts')
    requires multiset(Paired(ts, os)) == multiset(Paired(ts', os'))
    requires n in states
    ensures AbsorbAll(states, ts, os, rounds).states[n] == AbsorbAll(states, ts', os', rounds).states[n]
  {
    if n in Names(ts) {
      var i :| 0 <= i < |ts| && ts[i].name == n;
      var j := FindPair(ts, os, ts', os', i);
      AbsorbPresent(states, ts, os, rounds, |ts|, i);
      AbsorbPresent(states, ts', os', rounds, |ts'|, j);
    } else {
      AbsorbAbsent(states, ts, os, rounds, |ts|, n);
      forall j | 0 <= j < |ts'|
        ensures ts'[j].name != n
      {
        var i := FindPair(ts', os', ts, os, j);
      }
      AbsorbAbsent(states, ts', os', rounds, |ts'|, n);
    }
  }

  /** Applying the same results in another order gives the same state: tables,
      interval and routing decision. */
  lemma ResultOrderIrrelevant(net: Codec, s: Sys, ts: seq<Target>, os: seq<bool>, ts': seq<Target>, os': seq<bool>, io: Io)
    requires |ts| == |os| && |ts'| == |os'| && DistinctNames(ts) && DistinctNames(ts')
    requires multiset(Paired(ts, os)) == multiset(Paired(ts', os'))
    ensures ApplyResults(net, s, ts, os, io) == ApplyResults(net, s, ts', os', io)
  {
    var rounds := s.cfg.stableRounds;
    SameFlags(s.states, ts, os, ts', os', rounds);
    SameFlags(s.states, ts', os', ts, os, rounds);
    forall n | n in s.states
      ensures AbsorbAll(s.states, ts, os, rounds).states[n] == AbsorbAll(s.states, ts', os', rounds).states[n]
    {
      SameEntry(s.states, ts, os, ts', os', rounds, n);
    }
    assert AbsorbAll(s.states, ts, os, rounds).states == AbsorbAll(s.states, ts', os', rounds).states;
  }
}
