/** Whole runs of rounds in one configuration: the waits they set, how soon they
    settle, how often they touch the route. */
module Rounds {
  import opened Prelude
  import opened Addresses
  import opened Configuration
  import opened Pacing
  import opened Machine
  import opened Safety
  import opened Ordering

  /** One round: the outcome for each configured target, what somebody else did
      to the default route beforehand, and how the route operations go. */
  datatype Round = Round(oks: seq<bool>, edit: Option<Option<IPv4>>, io: Io)

  predicate Fits(c: Config, rs: seq<Round>) {
    forall k :: 0 <= k < |rs| ==> |rs[k].oks| == |c.targets|
  }

  function Edited(s: Sys, edit: Option<Option<IPv4>>): Sys {
    match edit case None => s case Some(g) => s.(kernelGateway := g)
  }

  function Step(net: Codec, s: Sys, r: Round): (s': Sys)
    requires |r.oks| == |s.cfg.targets|
    ensures s'.cfg == s.cfg
  {
    ApplyResults(net, Edited(s, r.edit), s.cfg.targets, r.oks, r.io)
  }

  /** The state after the first `k` rounds. */
  function At(net: Codec, s: Sys, rs: seq<Round>, k: nat): (s': Sys)
    requires k <= |rs| && Fits(s.cfg, rs)
    ensures s'.cfg == s.cfg
  {
    if k == 0 then s else Step(net, At(net, s, rs, k - 1), rs[k - 1])
  }

  /** What the loop of round `k` finds. */
  function TallyAt(net: Codec, s: Sys, rs: seq<Round>, k: nat): Tally
    requires k < |rs| && Fits(s.cfg, rs)
  {
    AbsorbAll(At(net, s, rs, k).states, s.cfg.targets, rs[k].oks, s.cfg.stableRounds)
  }

  function EditEvents(edit: Option<Option<IPv4>>): seq<Event> {
    match edit case None => [] case Some(g) => [RouteEdit(g)]
  }

  /** A step is what the events of one uninterrupted round do, in whatever order
      its probes finish. */
  lemma StepIsRound(net: Codec, s: Sys, r: Round, order: seq<nat>)
    requires |r.oks| == |s.cfg.targets|
    requires InRange(order, |r.oks|)
    requires forall i: nat :: i < |r.oks| ==> i in order
    ensures Exec(net, World(s, None), EditEvents(r.edit) + RoundEvents(order, r.oks, r.io)) == World(Step(net, s, r), None)
  {
    var before := EditEvents(r.edit);
    ExecConcat(net, World(s, None), before, RoundEvents(order, r.oks, r.io));
    if r.edit.Some? {
      assert Exec(net, World(s, None), before) == Next(net, World(s, None), before[0]);
    }
    CompletionOrderIrrelevant(net, Edited(s, r.edit), order, r.oks, r.io);
  }

  /** Every probe finishes, in the order of the targets. */
  function InTurn(n: nat): (order: seq<nat>)
    ensures InRange(order, n)
    ensures forall i: nat :: i < n ==> i in order
  {
    if n == 0 then [] else InTurn(n - 1) + [n - 1]
  }

  /** The events of the first `k` rounds. */
  function RunEvents(rs: seq<Round>, k: nat): seq<Event>
    requires k <= |rs|
  {
    if k == 0 then []
    else
      var r := rs[k - 1];
      RunEvents(rs, k - 1) + (EditEvents(r.edit) + RoundEvents(InTurn(|r.oks|), r.oks, r.io))
  }

  /** A run of rounds is what its events do. */
  lemma {:induction false} RunIsEvents(net: Codec, s: Sys, rs: seq<Round>, k: nat)
    requires k <= |rs| && Fits(s.cfg, rs)
    ensures Exec(net, World(s, None), RunEvents(rs, k)) == World(At(net, s, rs, k), None)
  {
    hide Exec, Step, RoundEvents, InTurn;
    if k == 0 {
      ExecNothing(net, World(s, None));
    } else {
      var r, mid := rs[k - 1], At(net, s, rs, k - 1);
      var more := EditEvents(r.edit) + RoundEvents(InTurn(|r.oks|), r.oks, r.io);
      RunIsEvents(net, s, rs, k - 1);
      ExecConcat(net, World(s, None), RunEvents(rs, k - 1), more);
      StepIsRound(net, mid, r, InTurn(|r.oks|));
    }
  }

  lemma ExecNothing(net: Codec, w: World)
    ensures Exec(net, w, []) == w
  {
  }

  lemma StepKeepsInv(net: Codec, s: Sys, r: Round)
    requires Inv(net, s) && |r.oks| == |s.cfg.targets|
    ensures Inv(net, Step(net, s, r))
  {
    ApplyKeepsInv(net, Edited(s, r.edit), s.cfg.targets, r.oks, r.io);
  }

  lemma {:induction false} AtKeepsInv(net: Codec, s: Sys, rs: seq<Round>, k: nat)
    requires Inv(net, s) && k <= |rs| && Fits(s.cfg, rs)
    ensures Inv(net, At(net, s, rs, k))
  {
    hide Inv, Step;
    if k > 0 {
      AtKeepsInv(net, s, rs, k - 1);
      StepKeepsInv(net, At(net, s, rs, k - 1), rs[k - 1]);
    }
  }

  /** Later rounds do not change what earlier ones did. */
  lemma {:induction false} AtPrefix(net: Codec, s: Sys, rs: seq<Round>, more: seq<Round>, k: nat)
    requires k <= |rs| && Fits(s.cfg, rs) && Fits(s.cfg, rs + more)
    ensures At(net, s, rs + more, k) == At(net, s, rs, k)
  {
    hide Step;
    if k > 0 {
      AtPrefix(net, s, rs, more, k - 1);
      assert (rs + more)[k - 1] == rs[k - 1];
    }
  }

  // ---------- waits ----------

  /** The sum of the waits set by the first `k` rounds. */
  function WaitSum(net: Codec, s: Sys, rs: seq<Round>, k: nat): int
    requires k <= |rs| && Fits(s.cfg, rs)
  {
    if k == 0 then 0 else WaitSum(net, s, rs, k - 1) + At(net, s, rs, k).nextInterval
  }

  lemma {:induction false} WaitSumPrefix(net: Codec, s: Sys, rs: seq<Round>, more: seq<Round>, k: nat)
    requires k <= |rs| && Fits(s.cfg, rs) && Fits(s.cfg, rs + more)
    ensures WaitSum(net, s, rs + more, k) == WaitSum(net, s, rs, k)
  {
    hide At;
    if k > 0 {
      WaitSumPrefix(net, s, rs, more, k - 1);
      AtPrefix(net, s, rs, more, k);
    }
  }

  /** What each round of the run tells the pacing. */
  function Beats(net: Codec, s: Sys, rs: seq<Round>): (bs: seq<Beat>)
    requires Fits(s.cfg, rs)
    ensures |bs| == |rs|
  {
    seq(|rs|, k requires 0 <= k < |rs| =>
      var t := TallyAt(net, s, rs, k); Beat(t.hasPending, t.changed))
  }

  /** How many of the first `k` rounds contain a flip. */
  function FlipRounds(net: Codec, s: Sys, rs: seq<Round>, k: nat): nat
    requires k <= |rs| && Fits(s.cfg, rs)
  {
    |set j: nat | j < k && TallyAt(net, s, rs, j).changed|
  }

  /** How many of the first `k` rounds have no contrary result. */
  function CalmRounds(net: Codec, s: Sys, rs: seq<Round>, k: nat): nat
    requires k <= |rs| && Fits(s.cfg, rs)
  {
    |set j: nat | j < k && !TallyAt(net, s, rs, j).hasPending|
  }

  lemma BeatsCount(net: Codec, s: Sys, rs: seq<Round>, k: nat)
    requires k <= |rs| && Fits(s.cfg, rs)
    ensures FlipRounds(net, s, rs, k) == FlipBeats(Beats(net, s, rs), k)
    ensures CalmRounds(net, s, rs, k) == CalmBeats(Beats(net, s, rs), k)
  {
    hide TallyAt;
    var bs := Beats(net, s, rs);
    FlipBeatsCount(bs, k);
    CalmBeatsCount(bs, k);
    assert (set j: nat | j < k && TallyAt(net, s, rs, j).changed) == (set j: nat | j < k && bs[j].changed);
    assert (set j: nat | j < k && !TallyAt(net, s, rs, j).hasPending) == (set j: nat | j < k && !bs[j].hasPending);
  }

  lemma FlipRoundsNext(net: Codec, s: Sys, rs: seq<Round>, k: nat)
    requires k < |rs| && Fits(s.cfg, rs)
    ensures FlipRounds(net, s, rs, k + 1) == FlipRounds(net, s, rs, k) + if TallyAt(net, s, rs, k).changed then 1 else 0
  {
    hide TallyAt;
    assert (set j: nat | j < k + 1 && TallyAt(net, s, rs, j).changed)
        == (set j: nat | j < k && TallyAt(net, s, rs, j).changed) + if TallyAt(net, s, rs, k).changed then {k} else {};
  }

  lemma StepPaces(net: Codec, s: Sys, r: Round)
    requires |r.oks| == |s.cfg.targets|
    ensures var t := AbsorbAll(s.states, s.cfg.targets, r.oks, s.cfg.stableRounds);
            Step(net, s, r).nextInterval == NextInterval(s.nextInterval, s.cfg.probeInterval, t.hasPending, t.changed)
  {
    hide AbsorbAll, Wanted, InPlace, NextInterval;
  }

  lemma {:induction false} RunPaces(net: Codec, s: Sys, rs: seq<Round>, k: nat)
    requires k <= |rs| && Fits(s.cfg, rs)
    ensures At(net, s, rs, k).nextInterval == Paced(s.nextInterval, s.cfg.probeInterval, Beats(net, s, rs), k)
    ensures WaitSum(net, s, rs, k) == PacedSum(s.nextInterval, s.cfg.probeInterval, Beats(net, s, rs), k)
  {
    hide Step, AbsorbAll;
    if k > 0 {
      RunPaces(net, s, rs, k - 1);
      StepPaces(net, At(net, s, rs, k - 1), rs[k - 1]);
    }
  }

  /** Amortised probing time: the waits of any run of rounds add up to at most the
      interval at the start, two base intervals for each round with a flip and
      each round without a contrary result, and 100ms a round. */
  lemma AmortisedWaits(net: Codec, s: Sys, rs: seq<Round>, k: nat)
    requires Inv(net, s) && k <= |rs| && Fits(s.cfg, rs)
    ensures WaitSum(net, s, rs, k) <=
              s.nextInterval
              + 2 * s.cfg.probeInterval * (FlipRounds(net, s, rs, k) + CalmRounds(net, s, rs, k))
              + 100_000_000 * k
  {
    hide At, AbsorbAll, TablesAgree, FlipRounds, CalmRounds;
    RunPaces(net, s, rs, k);
    BeatsCount(net, s, rs, k);
    PacedSumBound(s.nextInterval, s.cfg.probeInterval, Beats(net, s, rs), k);
  }

  predicate Accelerates(net: Codec, s: Sys, rs: seq<Round>, k: nat)
    requires k < |rs| && Fits(s.cfg, rs)
  {
    TallyAt(net, s, rs, k).hasPending && !TallyAt(net, s, rs, k).changed
  }

  /** After `k` accelerating rounds in a row the wait is the starting one halved
      `k` times, no lower than 100ms. The waits set meanwhile are the accelerated
      ones, and sum to less than the starting one plus 100ms a round. */
  lemma AcceleratingRun(net: Codec, s: Sys, rs: seq<Round>, k: nat)
    requires k <= |rs| && Fits(s.cfg, rs) && s.nextInterval >= 0
    requires forall j: nat :: j < k ==> Accelerates(net, s, rs, j)
    ensures At(net, s, rs, k).nextInterval ==
              if k == 0 then s.nextInterval
              else if s.nextInterval / Power2(k) < 100_000_000 then 100_000_000 else s.nextInterval / Power2(k)
    ensures WaitSum(net, s, rs, k) == AcceleratedSum(s.nextInterval, k)
    ensures AcceleratedSum(s.nextInterval, k) <= s.nextInterval - s.nextInterval / Power2(k) + k * 100_000_000
  {
    hide At, AbsorbAll;
    RunPaces(net, s, rs, k);
    var bs := Beats(net, s, rs);
    forall j: nat | j < k
      ensures bs[j].hasPending && !bs[j].changed
    {
      assert Accelerates(net, s, rs, j);
    }
    PacedAcceleration(s.nextInterval, s.cfg.probeInterval, bs, k);
  }

  /** From 5s down to the floor: six accelerating rounds in a row. */
  lemma DescentToFloor(net: Codec, s: Sys, rs: seq<Round>)
    requires |rs| == 6 && Fits(s.cfg, rs) && s.nextInterval == 5_000_000_000
    requires forall j: nat :: j < 6 ==> Accelerates(net, s, rs, j)
    ensures At(net, s, rs, 1).nextInterval == 2_500_000_000
    ensures At(net, s, rs, 2).nextInterval == 1_250_000_000
    ensures At(net, s, rs, 3).nextInterval == 625_000_000
    ensures At(net, s, rs, 4).nextInterval == 312_500_000
    ensures At(net, s, rs, 5).nextInterval == 156_250_000
    ensures At(net, s, rs, 6).nextInterval == 100_000_000
  {
    hide At, Accelerates;
    assert Power2(1) == 2 && Power2(2) == 4 && Power2(3) == 8;
    assert Power2(4) == 16 && Power2(5) == 32 && Power2(6) == 64;
    AcceleratingRun(net, s, rs, 1);
    AcceleratingRun(net, s, rs, 2);
    AcceleratingRun(net, s, rs, 3);
    AcceleratingRun(net, s, rs, 4);
    AcceleratingRun(net, s, rs, 5);
    AcceleratingRun(net, s, rs, 6);
  }
}
