/** When the control loop calls for a new route, and what that achieves. */
module Routing {
  import opened Prelude
  import opened Addresses
  import opened StableSort
  import opened Configuration
  import opened Selection
  import opened Debounce
  import opened Machine
  import opened Safety

  /** Every legal gateway text of the configuration is canonical. An http target
      may have no address at all. */
  predicate TextsCanonical(net: Codec, c: Config) {
    && (net.Legal(c.finalIP) ==> net.Canonical(c.finalIP))
    && forall i :: 0 <= i < |c.targets| && net.Legal(c.targets[i].ip) ==> net.Canonical(c.targets[i].ip)
  }

  lemma WantedIsCanonical(net: Codec, s: Sys)
    requires TextsCanonical(net, s.cfg) && net.Legal(Wanted(s))
    ensures net.Canonical(Wanted(s))
  {
    DesiredIsBest(s.cfg, Live(s.states));
  }

  lemma {:induction false} FirstLiveAgrees(ts: seq<Target>, a: set<string>, b: set<string>)
    requires forall t :: t in ts ==> (t.name in a <==> t.name in b)
    ensures FirstLive(ts, a) == FirstLive(ts, b)
  {
    if ts != [] {
      FirstLiveAgrees(ts[1..], a, b);
    }
  }

  /** Only the liveness of configured targets matters to the choice. */
  lemma DesiredAgrees(c: Config, a: set<string>, b: set<string>)
    requires forall i :: 0 <= i < |c.targets| ==> (c.targets[i].name in a <==> c.targets[i].name in b)
    ensures Desired(c, a) == Desired(c, b)
  {
    StableOrderPermutes(c.targets, SortedTargets(c), TargetWeight);
    forall t | t in SortedTargets(c)
      ensures t.name in a <==> t.name in b
    {
      assert t in multiset(c.targets);
    }
    FirstLiveAgrees(SortedTargets(c), a, b);
  }

  /** One section calls ReplaceDefault. */
  predicate Calls(net: Codec, s: Sys, force: bool, io: Io) {
    (force || io.readFails || !InPlace(net, s)) && net.Legal(Wanted(s))
  }

  lemma ConvergeCalls(net: Codec, s: Sys, force: bool, io: Io)
    ensures Converge(net, s, force, io).attempts ==
              s.attempts + if Calls(net, s, force, io) then [Attempt(Wanted(s), !io.replaceFails)] else []
  {
  }

  /** Where a section whose route operations succeed leaves the kernel: on the
      wanted gateway when its text is a legal address, untouched when it is not. */
  lemma ConvergeDichotomy(net: Codec, s: Sys, force: bool, io: Io)
    requires net.Lawful() && Works(io)
    ensures var s' := Converge(net, s, force, io);
            && Wanted(s') == Wanted(s)
            && s'.kernelGateway == if net.Legal(Wanted(s)) then net.parse(Wanted(s)) else s.kernelGateway
  {
  }

  /** Such a section ends with the route matching, so that the next one finds
      nothing to do, exactly when the wanted text is canonical. A legal text in
      another notation is installed again every round. */
  lemma MatchesIffCanonical(net: Codec, s: Sys, force: bool, io: Io)
    requires net.Lawful() && Works(io)
    ensures InPlace(net, Converge(net, s, force, io)) <==> net.Canonical(Wanted(s))
  {
  }

  lemma {:induction false} UnchangedKeepsUp(states: map<string, Slot>, targets: seq<Target>, oks: seq<bool>, rounds: int, k: nat)
    requires k <= |targets| == |oks| && !Absorb(states, targets, oks, rounds, k).changed
    ensures Live(Absorb(states, targets, oks, rounds, k).states) == Live(states)
  {
    if k > 0 {
      UnchangedKeepsUp(states, targets, oks, rounds, k - 1);
    }
  }

  /** A round without a flip does not change what is wanted. */
  lemma UnchangedKeepsWanted(s: Sys, targets: seq<Target>, oks: seq<bool>)
    requires |targets| == |oks|
    requires !AbsorbAll(s.states, targets, oks, s.cfg.stableRounds).changed
    ensures Wanted(Settle(s, AbsorbAll(s.states, targets, oks, s.cfg.stableRounds))) == Wanted(s)
  {
    UnchangedKeepsUp(s.states, targets, oks, s.cfg.stableRounds, |targets|);
  }

  /** A round that flips nothing and finds its route in place only moves the
      debounce counts and the interval. */
  lemma QuietRound(net: Codec, s: Sys, targets: seq<Target>, oks: seq<bool>, io: Io)
    requires |targets| == |oks| && !io.readFails && InPlace(net, s)
    requires !AbsorbAll(s.states, targets, oks, s.cfg.stableRounds).changed
    ensures var t := AbsorbAll(s.states, targets, oks, s.cfg.stableRounds);
            && ApplyResults(net, s, targets, oks, io) == Settle(s, t)
            && InPlace(net, Settle(s, t))
  {
    UnchangedKeepsWanted(s, targets, oks);
  }

  /** A round calls ReplaceDefault once if a target flips or its route is unread or
      not the one wanted, and the gateway wanted after it is legal; never else. */
  lemma ApplyCalls(net: Codec, s: Sys, targets: seq<Target>, oks: seq<bool>, io: Io)
    requires |targets| == |oks|
    ensures var t := AbsorbAll(s.states, targets, oks, s.cfg.stableRounds);
            var s' := ApplyResults(net, s, targets, oks, io);
            s'.attempts == s.attempts +
              if (t.changed || io.readFails || !InPlace(net, s)) && net.Legal(Wanted(s'))
              then [Attempt(Wanted(s'), !io.replaceFails)] else []
  {
    var t := AbsorbAll(s.states, targets, oks, s.cfg.stableRounds);
    ConvergeCalls(net, Settle(s, t), t.changed, io);
    if !t.changed {
      UnchangedKeepsWanted(s, targets, oks);
    }
  }

  /** The same in terms of a whole round: after any apply whose route operations
      succeed, the kernel's default is the gateway wanted now, or that gateway is
      not a legal address and the kernel is as before. */
  lemma ApplyDichotomy(net: Codec, s: Sys, targets: seq<Target>, oks: seq<bool>, io: Io)
    requires |targets| == |oks| && net.Lawful() && Works(io)
    ensures var s' := ApplyResults(net, s, targets, oks, io);
            s'.kernelGateway == if net.Legal(Wanted(s')) then net.parse(Wanted(s')) else s.kernelGateway
  {
  }

  lemma ReloadDichotomy(net: Codec, s: Sys, c: Config, io: Io)
    requires WellFormed(net, c) && net.Lawful() && Works(io)
    ensures var s' := Reload(net, s, c, io);
            && s'.cfg == c
            && s'.kernelGateway == if net.Legal(Wanted(s')) then net.parse(Wanted(s')) else s.kernelGateway
  {
  }

  /** Reloading the configuration in use, with its route in place, changes the
      interval at most. */
  lemma SameReloadIsQuiet(net: Codec, s: Sys, io: Io)
    requires Inv(net, s) && !io.readFails && InPlace(net, s)
    ensures Reload(net, s, s.cfg, io) == s.(nextInterval := s.cfg.probeInterval)
  {
    var c := s.cfg;
    ValidIsBuildable(net, c);
    AdoptTables(net, s, c);
    hide WellFormed, HistoriesHold, Wanted;
    var s' := Adopt(net, s, c);
    forall n | n in s.states
      ensures n in s'.states && s'.states[n] == s.states[n] && s'.probers[n] == s.probers[n]
    {
      var i :| 0 <= i < |c.targets| && c.targets[i].name == n;
      RetainOrigin(s.states, c.targets, |c.targets|, n);
      TableProber(net, s, n);
      TableProber(net, s', n);
    }
    assert s'.states == s.states;
    assert s'.probers == s.probers;
  }

  /** A reload that succeeds keeps the debounce state of exactly the names it
      keeps; all others start down and empty. The interval starts over. */
  lemma ReloadFrame(net: Codec, s: Sys, c: Config, io: Io, n: string)
    requires WellFormed(net, c)
    ensures var s' := Reload(net, s, c, io);
            && s'.cfg == c && s'.nextInterval == c.probeInterval
            && (n in s'.states <==> n in Names(c.targets))
            && (n in s'.states ==>
                  if n in s.states
                  then s'.states[n].filter == s.states[n].filter && s'.states[n].log == s.states[n].log
                  else s'.states[n].filter == Filter(false, 0, false) && s'.states[n].log == [])
  {
    ValidIsBuildable(net, c);
    AdoptTables(net, s, c);
    ConvergeFrame(net, Adopt(net, s, c), false, io);
    hide WellFormed, Converge, Retain, BuildProbers;
    if n in Retain(s.states, c.targets, |c.targets|) {
      RetainOrigin(s.states, c.targets, |c.targets|, n);
    }
  }

  /** A target that a reload keeps goes on being probed in the same way exactly if
      its method, the end point that method uses and the timeout stay the same: a
      new weight changes nothing, nor does a new notation of a pinged address. */
  lemma ReloadKeepsProber(net: Codec, s: Sys, c: Config, io: Io, n: string)
    requires Inv(net, s) && WellFormed(net, c)
    requires n in s.states && n in Names(c.targets)
    ensures var s' := Reload(net, s, c, io);
            && n in s.probers && n in s'.probers && n in s'.states
            && (s'.probers[n] == s.probers[n] <==>
                  SameEndPoint(net, s.states[n].target, s'.states[n].target) && s.cfg.probeTimeout == c.probeTimeout)
  {
    ReloadKeepsInv(net, s, c, io);
    var s' := Reload(net, s, c, io);
    TableProber(net, s, n);
    TableProber(net, s', n);
    ProbersCoincide(net, s.states[n].target, s.cfg.probeTimeout, s'.states[n].target, c.probeTimeout);
  }

  lemma TableProber(net: Codec, s: Sys, n: string)
    requires TablesAgree(net, s) && n in Names(s.cfg.targets)
    ensures n in s.states && n in s.probers
    ensures Serves(net, s.probers[n], s.states[n].target, s.cfg.probeTimeout)
    ensures NewProber(net, s.states[n].target, s.cfg.probeTimeout) == Some(s.probers[n])
  {
    var i :| 0 <= i < |s.cfg.targets| && s.cfg.targets[i].name == n;
    NewProberServes(net, s.cfg.targets[i], s.cfg.probeTimeout, s.probers[n]);
  }

  /** Among the first `k` targets, number `i` is the last to be named `n`. */
  predicate LastNamed(ts: seq<Target>, k: nat, i: nat, n: string)
    requires k <= |ts|
  {
    i < k && ts[i].name == n && forall j :: i < j < k ==> ts[j].name != n
  }

  lemma {:induction false} LastNamedExists(ts: seq<Target>, k: nat, n: string) returns (i: nat)
    requires k <= |ts| && exists j :: 0 <= j < k && ts[j].name == n
    ensures LastNamed(ts, k, i, n)
  {
    if ts[k - 1].name == n {
      i := k - 1;
    } else {
      i := LastNamedExists(ts, k - 1, n);
    }
  }

  lemma {:induction false} OverwriteAbsent(states: map<string, Slot>, ts: seq<Target>, k: nat, n: string)
    requires k <= |ts| && n in states && forall i :: 0 <= i < k ==> ts[i].name != n
    ensures Overwrite(states, ts, k)[n] == states[n]
  {
    if k > 0 {
      OverwriteAbsent(states, ts, k - 1, n);
    }
  }

  lemma {:induction false} OverwriteAt(states: map<string, Slot>, ts: seq<Target>, k: nat, i: nat, n: string)
    requires k <= |ts| && n in states && LastNamed(ts, k, i, n)
    ensures Overwrite(states, ts, k)[n].target == ts[i]
  {
    if i < k - 1 {
      assert LastNamed(ts, k - 1, i, n);
      OverwriteAt(states, ts, k - 1, i, n);
    }
  }

  /** A reload that fails has already overwritten the descriptions of the targets it
      keeps that are ahead of the one that failed. Nothing else changes, and
      neither does the gateway wanted. */
  lemma FailedReloadFrame(net: Codec, s: Sys, c: Config, io: Io)
    requires Buildable(net, c.targets, c.probeTimeout) < |c.targets|
    ensures var b, s' := Buildable(net, c.targets, c.probeTimeout), Reload(net, s, c, io);
            && s' == s.(states := s'.states)
            && s'.states.Keys == s.states.Keys
            && (forall n :: n in s.states ==>
                  s'.states[n].filter == s.states[n].filter && s'.states[n].log == s.states[n].log)
            && (forall n :: n in s.states ==>
                  if forall i :: 0 <= i < b ==> c.targets[i].name != n then s'.states[n] == s.states[n]
                  else exists i: nat :: LastNamed(c.targets, b, i, n) && s'.states[n].target == c.targets[i])
            && Wanted(s') == Wanted(s)
  {
    var s' := Reload(net, s, c, io);
    var b := Buildable(net, c.targets, c.probeTimeout);
    forall n | n in s.states
      ensures if forall i :: 0 <= i < b ==> c.targets[i].name != n then s'.states[n] == s.states[n]
              else exists i: nat :: LastNamed(c.targets, b, i, n) && s'.states[n].target == c.targets[i]
    {
      if i :| 0 <= i < b && c.targets[i].name == n {
        var last := LastNamedExists(c.targets, b, n);
        OverwriteAt(s.states, c.targets, b, last, n);
      } else {
        OverwriteAbsent(s.states, c.targets, b, n);
      }
    }
    assert Live(s'.states) == Live(s.states);
  }
}
