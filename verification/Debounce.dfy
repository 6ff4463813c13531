/** The debounce filter of one target: the step the control loop takes for each
    probe result, and what a whole history of results makes of it
    (internal/state/state.go, applyResults). */
module Debounce {

  /** `up` is the debounced state; `pending` results in a row have pointed to
      `pendingUp` instead. */
  datatype Filter = Filter(up: bool, pending: nat, pendingUp: bool)

  const FRESH := Filter(false, 0, false)

  function Observe(f: Filter, ok: bool, rounds: int): Filter {
    if ok != f.up then
      var restart := f.pending == 0 || f.pendingUp != ok;
      var run := if restart then 1 else f.pending + 1;
      if run >= rounds then Filter(ok, 0, ok) else Filter(f.up, run, ok)
    else
      f.(pending := 0)
  }

  /** The observation turns the debounced state over. */
  predicate Flips(f: Filter, ok: bool, rounds: int) {
    Observe(f, ok, rounds).up != f.up
  }

  /** One applied probe result, with the StableRounds in force at the time. */
  datatype Sample = Sample(ok: bool, rounds: int)

  /** The filter of a target created fresh and then fed `h`. */
  function Replay(h: seq<Sample>): Filter {
    if h == [] then FRESH
    else Observe(Replay(h[..|h| - 1]), h[|h| - 1].ok, h[|h| - 1].rounds)
  }

  /** How many results have to agree: a StableRounds below 1 acts like 1. */
  function Window(s: Sample): nat {
    if s.rounds < 1 then 1 else s.rounds
  }

  /** The last `Window` results up to and including `j` all exist and agree. */
  predicate Confirmed(h: seq<Sample>, j: nat)
    requires j < |h|
  {
    && Window(h[j]) <= j + 1
    && forall k :: j - Window(h[j]) < k <= j ==> h[k].ok == h[j].ok
  }

  /** The latest confirmed position, -1 when there is none. */
  function LatestConfirmed(h: seq<Sample>): (j: int)
    ensures -1 <= j < |h|
    ensures j >= 0 ==> Confirmed(h, j)
    ensures forall k: nat :: j < k < |h| ==> !Confirmed(h, k)
  {
    LatestConfirmedBelow(h, |h|)
  }

  function LatestConfirmedBelow(h: seq<Sample>, n: nat): (j: int)
    requires n <= |h|
    ensures -1 <= j < n
    ensures j >= 0 ==> Confirmed(h, j)
    ensures forall k: nat :: j < k < n ==> !Confirmed(h, k)
  {
    if n == 0 then -1
    else if Confirmed(h, n - 1) then n - 1
    else LatestConfirmedBelow(h, n - 1)
  }

  /** `r` is the length of the longest run of results `v` that ends the history. */
  predicate TrailingRun(h: seq<Sample>, v: bool, r: nat) {
    && r <= |h|
    && (forall k :: |h| - r <= k < |h| ==> h[k].ok == v)
    && (r < |h| ==> h[|h| - r - 1].ok != v)
  }

  lemma {:induction false} PendingIsTrailingRun(h: seq<Sample>)
    ensures TrailingRun(h, !Replay(h).up, Replay(h).pending)
    ensures Replay(h).pending > 0 ==> Replay(h).pendingUp == !Replay(h).up
  {
    if h != [] {
      PendingIsTrailingRun(h[..|h| - 1]);
    }
  }

  /** A history whose last results `v` number `r`, no more, confirms its last
      position exactly when `r` reaches the window. */
  lemma ConfirmedByRun(h: seq<Sample>, r: nat)
    requires h != [] && TrailingRun(h, h[|h| - 1].ok, r)
    ensures Confirmed(h, |h| - 1) <==> r >= Window(h[|h| - 1])
  {
  }

  /** If the last result is confirmed the filter shows it; if not, the filter shows
      what it showed before. */
  lemma ConfirmedShows(h: seq<Sample>)
    requires h != []
    ensures Confirmed(h, |h| - 1) ==> Replay(h).up == h[|h| - 1].ok
    ensures !Confirmed(h, |h| - 1) ==> Replay(h).up == Replay(h[..|h| - 1]).up
  {
    var g, last := h[..|h| - 1], h[|h| - 1];
    var f := Replay(g);
    PendingIsTrailingRun(g);
    if last.ok != f.up {
      ContraryExtendsRun(h, f.pending);
      ConfirmedByRun(h, f.pending + 1);
    }
  }

  lemma ContraryExtendsRun(h: seq<Sample>, r: nat)
    requires h != []
    requires TrailingRun(h[..|h| - 1], h[|h| - 1].ok, r)
    ensures TrailingRun(h, h[|h| - 1].ok, r + 1)
  {
  }

  lemma ConfirmedPrefix(h: seq<Sample>, n: nat, j: nat)
    requires j < n <= |h|
    ensures Confirmed(h[..n], j) <==> Confirmed(h, j)
  {
  }

  /** The debounced state is the value at the latest confirmed position, and
      down when there is none: over any history, whatever StableRounds was at
      each step. */
  lemma {:induction false} UpIsLatestConfirmed(h: seq<Sample>)
    ensures Replay(h).up <==> LatestConfirmed(h) >= 0 && h[LatestConfirmed(h)].ok
  {
    if h != [] {
      var g := h[..|h| - 1];
      UpIsLatestConfirmed(g);
      ConfirmedShows(h);
      forall j: nat | j < |g|
        ensures Confirmed(g, j) <==> Confirmed(h, j)
      {
        ConfirmedPrefix(h, |g|, j);
      }
    }
  }

  /** Result `j` of the history turned the state over. */
  predicate FlipAt(h: seq<Sample>, j: nat)
    requires j < |h|
  {
    Replay(h[..j + 1]).up != Replay(h[..j]).up
  }

  lemma {:induction false} PendingSinceFlip(h: seq<Sample>, i: nat, m: nat)
    requires i < m <= |h| && FlipAt(h, i)
    ensures Replay(h[..m]).pending <= m - i - 1
    decreases m
  {
    assert h[..m][..m - 1] == h[..m - 1];
    if m > i + 1 {
      PendingSinceFlip(h, i, m - 1);
    }
  }

  /** Two flips of one target are at least StableRounds results apart. */
  lemma FlipsAreSpaced(h: seq<Sample>, i: nat, j: nat)
    requires i < j < |h| && FlipAt(h, i) && FlipAt(h, j)
    ensures j - i >= Window(h[j])
  {
    PendingSinceFlip(h, i, j);
    assert h[..j + 1][..j] == h[..j];
  }
}
