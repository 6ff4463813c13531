/** How often a run of rounds flips a target and replaces the route. */
module Churn {
  import opened Prelude
  import opened Addresses
  import opened Configuration
  import opened Debounce
  import opened Pacing
  import opened Machine
  import opened Safety
  import opened Routing
  import opened Rounds
  import opened Stabilisation

  /** How many of the first `k` rounds turn target `i` over. */
  function FlipCount(net: Codec, s: Sys, rs: seq<Round>, k: nat, i: nat): nat
    requires k <= |rs| && Fits(s.cfg, rs) && Listed(s) && i < |s.cfg.targets|
  {
    |set j: nat | j < k && FlipsAt(net, s, rs, j, i)|
  }

  lemma FlipCountNext(net: Codec, s: Sys, rs: seq<Round>, k: nat, i: nat)
    requires k < |rs| && Fits(s.cfg, rs) && Listed(s) && i < |s.cfg.targets|
    ensures FlipCount(net, s, rs, k + 1, i) == FlipCount(net, s, rs, k, i) + if FlipsAt(net, s, rs, k, i) then 1 else 0
  {
    hide FlipsAt;
    assert (set j: nat | j < k + 1 && FlipsAt(net, s, rs, j, i))
        == (set j: nat | j < k && FlipsAt(net, s, rs, j, i)) + if FlipsAt(net, s, rs, k, i) then {k} else {};
  }

  /** The flips of the first `m` targets together. */
  function TotalFlips(net: Codec, s: Sys, rs: seq<Round>, k: nat, m: nat): nat
    requires k <= |rs| && Fits(s.cfg, rs) && Listed(s) && m <= |s.cfg.targets|
  {
    if m == 0 then 0 else TotalFlips(net, s, rs, k, m - 1) + FlipCount(net, s, rs, k, m - 1)
  }

  lemma NoFlipsYet(net: Codec, s: Sys, rs: seq<Round>, i: nat)
    requires Fits(s.cfg, rs) && Listed(s) && i < |s.cfg.targets|
    ensures FlipCount(net, s, rs, 0, i) == 0
  {
  }

  lemma ObservePays(f: Filter, ok: bool, rounds: int, count: nat, budget: int)
    requires rounds >= 1 && rounds * count + f.pending <= budget
    ensures var f' := Observe(f, ok, rounds);
            rounds * (count + if Flips(f, ok, rounds) then 1 else 0) + f'.pending <= budget + 1
  {
  }

  /** Each flip of a target uses up StableRounds rounds of its own. */
  lemma {:induction false} FlipsPaid(net: Codec, s: Sys, rs: seq<Round>, k: nat, i: nat)
    requires Inv(net, s) && Listed(s) && k <= |rs| && Fits(s.cfg, rs) && i < |s.cfg.targets|
    ensures s.cfg.stableRounds * FlipCount(net, s, rs, k, i) + FilterAt(net, s, rs, k, i).pending
              <= FilterAt(net, s, rs, 0, i).pending + k
  {
    hide FilterAt, Observe, TablesAgree, FlipCount;
    assert k == 0 ==> FlipCount(net, s, rs, k, i) == 0 by {
      NoFlipsYet(net, s, rs, i);
    }
    if k > 0 {
      FlipsPaid(net, s, rs, k - 1, i);
      FlipCountNext(net, s, rs, k - 1, i);
      FilterNext(net, s, rs, k - 1, i);
      ObservePays(FilterAt(net, s, rs, k - 1, i), rs[k - 1].oks[i], s.cfg.stableRounds,
                  FlipCount(net, s, rs, k - 1, i), FilterAt(net, s, rs, 0, i).pending + k - 1);
    }
  }

  lemma DivideBound(d: int, c: nat, p: nat, k: nat)
    requires d >= 1 && d * c + p <= k
    ensures c <= k / d
  {
    var q := k / d;
    assert k == d * q + k % d;
    if c > q {
      MulMonotone(d, q + 1, c);
    }
  }

  lemma {:induction false} TotalBound(net: Codec, s: Sys, rs: seq<Round>, k: nat, m: nat)
    requires Inv(net, s) && Listed(s) && k <= |rs| && Fits(s.cfg, rs) && m <= |s.cfg.targets|
    requires forall i: nat :: i < m ==> FilterAt(net, s, rs, 0, i).pending == 0
    ensures TotalFlips(net, s, rs, k, m) <= m * (k / s.cfg.stableRounds)
  {
    hide FilterAt, FlipCount, TablesAgree;
    if m > 0 {
      TotalBound(net, s, rs, k, m - 1);
      FlipsPaid(net, s, rs, k, m - 1);
      DivideBound(s.cfg.stableRounds, FlipCount(net, s, rs, k, m - 1), FilterAt(net, s, rs, k, m - 1).pending, k);
      var q := k / s.cfg.stableRounds;
      assert m * q == (m - 1) * q + q;
    }
  }

  lemma {:induction false} TotalNext(net: Codec, s: Sys, rs: seq<Round>, k: nat, m: nat)
    requires Listed(s) && k < |rs| && Fits(s.cfg, rs) && m <= |s.cfg.targets|
    ensures TotalFlips(net, s, rs, k + 1, m) >= TotalFlips(net, s, rs, k, m)
    ensures (exists i: nat :: i < m && FlipsAt(net, s, rs, k, i)) ==>
              TotalFlips(net, s, rs, k + 1, m) >= TotalFlips(net, s, rs, k, m) + 1
  {
    hide FlipsAt, FlipCount;
    if m > 0 {
      FlipCountNext(net, s, rs, k, m - 1);
      TotalNext(net, s, rs, k, m - 1);
    }
  }

  /** A round with a flip has at least one target's flip to show for it. */
  lemma {:induction false} FlipRoundsBound(net: Codec, s: Sys, rs: seq<Round>, k: nat)
    requires Listed(s) && k <= |rs| && Fits(s.cfg, rs)
    ensures FlipRounds(net, s, rs, k) <= TotalFlips(net, s, rs, k, |s.cfg.targets|)
  {
    hide FlipsAt, TotalFlips, TallyAt;
    if k > 0 {
      FlipRoundsBound(net, s, rs, k - 1);
      FlipRoundsNext(net, s, rs, k - 1);
      FlagsAt(net, s, rs, k - 1);
      TotalNext(net, s, rs, k - 1, |s.cfg.targets|);
    }
  }

  /** How many of the first `k` rounds somebody else edits the route before. */
  function Edits(rs: seq<Round>, k: nat): nat
    requires k <= |rs|
  {
    |set j: nat | j < k && rs[j].edit.Some?|
  }

  /** How many of the first `k` rounds have a failing route operation. */
  function Faults(rs: seq<Round>, k: nat): nat
    requires k <= |rs|
  {
    |set j: nat | j < k && !Works(rs[j].io)|
  }

  lemma EditsNext(rs: seq<Round>, k: nat)
    requires k < |rs|
    ensures Edits(rs, k + 1) == Edits(rs, k) + if rs[k].edit.Some? then 1 else 0
  {
    var before, now := set j: nat | j < k && rs[j].edit.Some?, set j: nat | j < k + 1 && rs[j].edit.Some?;
    if rs[k].edit.Some? {
      assert now == before + {k};
    } else {
      assert now == before;
    }
  }

  lemma FaultsNext(rs: seq<Round>, k: nat)
    requires k < |rs|
    ensures Faults(rs, k + 1) == Faults(rs, k) + if Works(rs[k].io) then 0 else 1
  {
    hide Works;
    var before, now := set j: nat | j < k && !Works(rs[j].io), set j: nat | j < k + 1 && !Works(rs[j].io);
    if Works(rs[k].io) {
      assert now == before;
    } else {
      assert now == before + {k};
    }
  }

  // ---------- the calls of a run ----------

  /** Round `j` flips a target, or does not read the gateway wanted from the kernel;
      and the gateway wanted after it is legal. */
  predicate CallsAt(net: Codec, s: Sys, rs: seq<Round>, j: nat)
    requires j < |rs| && Fits(s.cfg, rs)
  {
    && (TallyAt(net, s, rs, j).changed || rs[j].io.readFails || !InPlace(net, Edited(At(net, s, rs, j), rs[j].edit)))
    && net.Legal(Wanted(At(net, s, rs, j + 1)))
  }

  /** One entry for each round among the first `k` that calls, in order: the gateway
      wanted after that round, and whether its request went through. */
  function CallLog(net: Codec, s: Sys, rs: seq<Round>, k: nat): seq<Attempt>
    requires k <= |rs| && Fits(s.cfg, rs)
  {
    if k == 0 then []
    else if CallsAt(net, s, rs, k - 1)
    then CallLog(net, s, rs, k - 1) + [Attempt(Wanted(At(net, s, rs, k)), !rs[k - 1].io.replaceFails)]
    else CallLog(net, s, rs, k - 1)
  }

  /** The calls of any run are exactly its call log. */
  lemma {:induction false} CallsOfRun(net: Codec, s: Sys, rs: seq<Round>, k: nat)
    requires k <= |rs| && Fits(s.cfg, rs)
    ensures At(net, s, rs, k).attempts == s.attempts + CallLog(net, s, rs, k)
  {
    hide AbsorbAll, ApplyResults, InPlace, Wanted;
    if k > 0 {
      CallsOfRun(net, s, rs, k - 1);
      var r := rs[k - 1];
      ApplyCalls(net, Edited(At(net, s, rs, k - 1), r.edit), s.cfg.targets, r.oks, r.io);
    }
  }

  lemma {:induction false} CallLogFull(net: Codec, s: Sys, rs: seq<Round>, k: nat)
    requires k <= |rs| && Fits(s.cfg, rs)
    requires forall j: nat :: j < k ==> CallsAt(net, s, rs, j)
    ensures |CallLog(net, s, rs, k)| == k
  {
    hide CallsAt, At, Wanted;
    if k > 0 {
      CallLogFull(net, s, rs, k - 1);
    }
  }

  /** Retry and recovery. As long as rounds find a mismatch they cannot clear, with
      a legal gateway wanted, each calls for the route once more; and the first
      round whose operations work leaves the gateway wanted then in the kernel,
      whatever the failures before it left there. */
  lemma RetriedUntilItWorks(net: Codec, s: Sys, rs: seq<Round>, k: nat)
    requires k < |rs| && Fits(s.cfg, rs) && net.Lawful()
    requires forall j: nat :: j < k ==> !InPlace(net, Edited(At(net, s, rs, j), rs[j].edit)) || rs[j].io.readFails
    requires forall j: nat :: 1 <= j <= k + 1 ==> net.Legal(Wanted(At(net, s, rs, j)))
    requires Works(rs[k].io)
    ensures |At(net, s, rs, k).attempts| == |s.attempts| + k
    ensures At(net, s, rs, k + 1).kernelGateway == net.parse(Wanted(At(net, s, rs, k + 1)))
  {
    hide AbsorbAll, InPlace, Wanted, Step, At;
    forall j: nat | j < k
      ensures CallsAt(net, s, rs, j)
    {
    }
    CallLogFull(net, s, rs, k);
    CallsOfRun(net, s, rs, k);
    StepRoutes(net, At(net, s, rs, k), rs[k]);
    AtNext(net, s, rs, k);
  }

  lemma AtNext(net: Codec, s: Sys, rs: seq<Round>, k: nat)
    requires k < |rs| && Fits(s.cfg, rs)
    ensures At(net, s, rs, k + 1) == Step(net, At(net, s, rs, k), rs[k])
  {
  }

  /** What is written canonically can be in place, nothing else. */
  lemma InPlaceIsCanonical(net: Codec, s: Sys)
    requires net.Lawful() && InPlace(net, s)
    ensures net.Canonical(Wanted(s))
  {
  }

  /** A legal gateway written in another notation never settles: whatever fails and
      whoever edits the route, every round after which it is wanted has called for
      it once more. */
  lemma SecondFormNeverSettles(net: Codec, s: Sys, rs: seq<Round>, k: nat)
    requires k <= |rs| && Fits(s.cfg, rs) && net.Lawful()
    requires forall j: nat :: 1 <= j <= k ==>
               net.Legal(Wanted(At(net, s, rs, j))) && !net.Canonical(Wanted(At(net, s, rs, j)))
    ensures |At(net, s, rs, k).attempts| == |s.attempts| + k
  {
    hide AbsorbAll, InPlace, Wanted, Step, At;
    forall j: nat | j < k
      ensures CallsAt(net, s, rs, j)
    {
      var before := Edited(At(net, s, rs, j), rs[j].edit);
      if !TallyAt(net, s, rs, j).changed && InPlace(net, before) {
        InPlaceIsCanonical(net, before);
        AtNext(net, s, rs, j);
        UnchangedKeeps(net, At(net, s, rs, j), rs[j]);
      }
    }
    CallLogFull(net, s, rs, k);
    CallsOfRun(net, s, rs, k);
  }

  lemma UnchangedKeeps(net: Codec, s: Sys, r: Round)
    requires |r.oks| == |s.cfg.targets|
    requires !AbsorbAll(s.states, s.cfg.targets, r.oks, s.cfg.stableRounds).changed
    ensures Wanted(Step(net, s, r)) == Wanted(Edited(s, r.edit))
  {
    hide AbsorbAll, InPlace, NextInterval, Live;
    UnchangedKeepsWanted(Edited(s, r.edit), s.cfg.targets, r.oks);
  }

  // ---------- how many calls ----------

  /** A legal gateway is wanted that is not in place. */
  function Owed(net: Codec, s: Sys): nat {
    if net.Legal(Wanted(s)) && !InPlace(net, s) then 1 else 0
  }

  lemma StepAttempts(net: Codec, s: Sys, r: Round)
    requires |r.oks| == |s.cfg.targets|
    ensures |s.attempts| <= |Step(net, s, r).attempts| <= |s.attempts| + 1
  {
    hide AbsorbAll, Wanted, InPlace, NextInterval;
  }

  lemma StepPaysDebt(net: Codec, s: Sys, r: Round)
    requires |r.oks| == |s.cfg.targets| && Works(r.io) && TextsCanonical(net, s.cfg)
    ensures Owed(net, Step(net, s, r)) == 0
  {
    var s' := Step(net, s, r);
    if net.Legal(Wanted(s')) {
      WantedIsCanonical(net, s');
    }
  }

  lemma StepOwes(net: Codec, s: Sys, r: Round)
    requires |r.oks| == |s.cfg.targets| && TextsCanonical(net, s.cfg)
    ensures |Step(net, s, r).attempts| + Owed(net, Step(net, s, r)) <=
              |s.attempts| + Owed(net, s)
              + (if AbsorbAll(s.states, s.cfg.targets, r.oks, s.cfg.stableRounds).changed then 1 else 0)
              + (if r.edit.Some? then 1 else 0) + (if Works(r.io) then 0 else 2)
  {
    StepAttempts(net, s, r);
    hide AbsorbAll, InPlace, Wanted;
    if Works(r.io) {
      StepPaysDebt(net, s, r);
      if r.edit.None? && !AbsorbAll(s.states, s.cfg.targets, r.oks, s.cfg.stableRounds).changed {
        ApplyCalls(net, s, s.cfg.targets, r.oks, r.io);
        UnchangedKeeps(net, s, r);
      }
    }
  }

  /** Over any run: a call of ReplaceDefault is paid for by a route not in place
      at the start, by a round with a flip, by a foreign edit, or by a round whose
      route operations fail (two calls at most for each of those). */
  lemma {:induction false} AttemptsBound(net: Codec, s: Sys, rs: seq<Round>, k: nat)
    requires TextsCanonical(net, s.cfg) && k <= |rs| && Fits(s.cfg, rs)
    ensures |At(net, s, rs, k).attempts| + Owed(net, At(net, s, rs, k)) <=
              |s.attempts| + Owed(net, s) + FlipRounds(net, s, rs, k) + Edits(rs, k) + 2 * Faults(rs, k)
  {
    hide Step, AbsorbAll, InPlace, Owed;
    if k > 0 {
      FlipRoundsNext(net, s, rs, k - 1);
      EditsNext(rs, k - 1);
      FaultsNext(rs, k - 1);
      AttemptsBound(net, s, rs, k - 1);
      StepOwes(net, At(net, s, rs, k - 1), rs[k - 1]);
    }
  }

  /** Bounded churn. From a state in which no result is pending, as New leaves it,
      `k` rounds call ReplaceDefault at most once, once more for every
      StableRounds rounds and target, once for each foreign edit and twice for
      each round whose route operations fail. */
  lemma BoundedChurn(net: Codec, s: Sys, rs: seq<Round>, k: nat)
    requires Inv(net, s) && TextsCanonical(net, s.cfg)
    requires forall n :: n in s.states ==> s.states[n].filter.pending == 0
    requires k <= |rs| && Fits(s.cfg, rs)
    ensures |At(net, s, rs, k).attempts| <=
              |s.attempts| + 1 + |s.cfg.targets| * (k / s.cfg.stableRounds) + Edits(rs, k) + 2 * Faults(rs, k)
  {
    hide AbsorbAll, FlipRounds, TotalFlips, InPlace, Step;
    InvListed(net, s);
    AttemptsBound(net, s, rs, k);
    FlipRoundsBound(net, s, rs, k);
    TotalBound(net, s, rs, k, |s.cfg.targets|);
  }

  lemma UndisturbedCounts(rs: seq<Round>, k: nat)
    requires k <= |rs| && forall j :: 0 <= j < k ==> rs[j].edit.None? && Works(rs[j].io)
    ensures Edits(rs, k) == 0 && Faults(rs, k) == 0
  {
    assert (set j: nat | j < k && rs[j].edit.Some?) == {};
    assert (set j: nat | j < k && !Works(rs[j].io)) == {};
  }

  /** From New, with working route operations and nobody else editing routes. */
  lemma ChurnFromNew(net: Codec, c: Config, g: Option<IPv4>, rs: seq<Round>, k: nat)
    requires WellFormed(net, c) && TextsCanonical(net, c)
    requires k <= |rs| && Fits(c, rs)
    requires forall j :: 0 <= j < k ==> rs[j].edit.None? && Works(rs[j].io)
    ensures New(net, c, g).Some? && New(net, c, g).value.cfg == c
    ensures |At(net, New(net, c, g).value, rs, k).attempts| <= 1 + |c.targets| * (k / c.stableRounds)
  {
    hide AbsorbAll, At, TablesAgree;
    NewKeepsInv(net, c, g);
    var s := New(net, c, g).value;
    BoundedChurn(net, s, rs, k);
    UndisturbedCounts(rs, k);
  }
}
