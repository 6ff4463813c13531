/** Which gateway the control loop wants: the first live target in order of
    preference, or the fallback (internal/state/state.go, desiredNexthop). */
module Selection {
  import opened Prelude
  import opened StableSort
  import opened Configuration

  function FirstLive(ts: seq<Target>, live: set<string>): Option<Target> {
    if ts == [] then None
    else if ts[0].name in live then Some(ts[0])
    else FirstLive(ts[1..], live)
  }

  /** The desired gateway, as text. */
  function Desired(c: Config, live: set<string>): string {
    match FirstLive(SortedTargets(c), live)
    case Some(t) => t.ip
    case None => c.finalIP
  }

  /** Position `b` holds the live target of greatest weight, the first such in
      configuration order. */
  predicate IsBest(ts: seq<Target>, live: set<string>, b: nat) {
    && b < |ts| && ts[b].name in live
    && forall i :: 0 <= i < |ts| && ts[i].name in live ==>
         ts[i].weight < ts[b].weight || (ts[i].weight == ts[b].weight && b <= i)
  }

  /** One pass over the first `n` targets, keeping the best live one. */
  function BestBelow(ts: seq<Target>, live: set<string>, n: nat): (b: Option<nat>)
    requires n <= |ts|
    ensures b.None? <==> forall i :: 0 <= i < n ==> ts[i].name !in live
    ensures b.Some? ==> b.value < n && IsBest(ts[..n], live, b.value)
  {
    if n == 0 then None
    else
      var b := BestBelow(ts, live, n - 1);
      if ts[n - 1].name in live && (b.None? || ts[n - 1].weight > ts[b.value].weight)
      then Some(n - 1) else b
  }

  function Best(ts: seq<Target>, live: set<string>): (b: Option<nat>)
    ensures b.None? <==> forall i :: 0 <= i < |ts| ==> ts[i].name !in live
    ensures b.Some? ==> IsBest(ts, live, b.value)
  {
    assert ts[..|ts|] == ts;
    BestBelow(ts, live, |ts|)
  }

  /** Narrowing a list to one weight does not change its first live element when
      that element has the weight. */
  lemma {:induction false} FirstLiveOfWeight(ts: seq<Target>, live: set<string>, w: int)
    requires FirstLive(ts, live).Some? && FirstLive(ts, live).value.weight == w
    ensures FirstLive(OfKey(ts, TargetWeight, w), live) == FirstLive(ts, live)
  {
    if ts[0].name !in live {
      FirstLiveOfWeight(ts[1..], live, w);
    }
  }

  lemma {:induction false} FirstLiveOfBest(ts: seq<Target>, live: set<string>, b: nat)
    requires IsBest(ts, live, b)
    ensures FirstLive(OfKey(ts, TargetWeight, ts[b].weight), live) == Some(ts[b])
  {
    if b > 0 {
      assert ts[0].name in live ==> ts[0].weight < ts[b].weight;
      assert IsBest(ts[1..], live, b - 1) by {
        assert forall i :: 0 <= i < |ts| - 1 ==> ts[1..][i] == ts[i + 1];
      }
      FirstLiveOfBest(ts[1..], live, b - 1);
    }
  }

  lemma {:induction false} FirstLiveFound(ts: seq<Target>, live: set<string>)
    ensures FirstLive(ts, live).None? <==> forall t :: t in ts ==> t.name !in live
    ensures FirstLive(ts, live).Some? ==>
              FirstLive(ts, live).value in ts && FirstLive(ts, live).value.name in live
  {
    if ts != [] && ts[0].name !in live {
      FirstLiveFound(ts[1..], live);
    }
  }

  lemma {:induction false} FirstLiveHeaviest(ts: seq<Target>, live: set<string>, t: Target)
    requires Descending(ts, TargetWeight)
    requires t in ts && t.name in live
    ensures FirstLive(ts, live).Some? && FirstLive(ts, live).value.weight >= t.weight
  {
    if ts[0].name in live {
      var j :| 0 <= j < |ts| && ts[j] == t;
      assert j > 0 ==> TargetWeight(ts[0]) >= TargetWeight(ts[j]);
    } else {
      FirstLiveHeaviest(ts[1..], live, t);
    }
  }

  /** Walking the sorted list to the first live target is the same as one pass
      over the configuration for the heaviest live target, ties to the earlier
      entry; the fallback is taken exactly when no target is live. */
  lemma DesiredIsBest(c: Config, live: set<string>)
    ensures Desired(c, live) ==
              match Best(c.targets, live) case Some(b) => c.targets[b].ip case None => c.finalIP
    ensures FirstLive(SortedTargets(c), live) ==
              match Best(c.targets, live) case Some(b) => Some(c.targets[b]) case None => None
  {
    var out := SortedTargets(c);
    StableOrderPermutes(c.targets, out, TargetWeight);
    FirstLiveFound(out, live);
    match Best(c.targets, live) {
      case None =>
        forall t | t in out
          ensures t.name !in live
        {
          assert t in multiset(c.targets);
        }
      case Some(b) =>
        var t := c.targets[b];
        assert t in multiset(out);
        FirstLiveHeaviest(out, live, t);
        var first := FirstLive(out, live).value;
        assert first in multiset(c.targets);
        assert first.weight == t.weight;
        FirstLiveOfWeight(out, live, t.weight);
        FirstLiveOfBest(c.targets, live, b);
    }
  }
}
