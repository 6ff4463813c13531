# nexthop: the control loop, verified

nexthop probes a set of upstream gateways and keeps the machine's IPv4 default
route on the best one that answers. This project models its control loop and the
parts that decide what the loop does, and proves what they promise over whole
runs.

| file | what it models |
|---|---|
| `Addresses.dfy` | optional values; IPv4 addresses and their text |
| `Configuration.dfy` | configuration, validation, probers, order of preference |
| `StableSort.dfy`, `Listing.dfy` | stable descending order; the insertion sort of the status listing |
| `Selection.dfy` | which gateway is wanted |
| `Debounce.dfy` | one target's debounce filter and its history |
| `Pacing.dfy` | the adaptive interval |
| `Machine.dfy` | the manager as a transition system: snapshot, probe completion, apply, reload, foreign route edit |
| `Safety.dfy`, `Ordering.dfy`, `Routing.dfy` | invariants of every interleaving; order independence; when the route is replaced |
| `Rounds.dfy`, `Stabilisation.dfy`, `Churn.dfy`, `Reporting.dfy` | whole runs: waits, settling, flips and calls, truthfulness of the report |
| `RouteTable.dfy` | the kernel's route table with failing requests, and the router over it |
| `Manager.dfy` | the manager and its target states as objects updated in place; every method is a step of the machine |
| `Forms.dfy`, `Keyboard.dfy` | the configuration editor's fields and forms; what each key does, as a transition system |
| `Editor.dfy`, `Sessions.dfy` | the editor as an object updated in place; what a user can do with it, as sequences of keys |
| `Corners.dfy` | concrete inputs on which stronger claims fail |

The text form of an address (`net.ParseIP` with `To4`, and `String`) is a value of
type `Codec` that every result takes as a parameter; a text is *canonical* when
the library would write the address it reads from it in the same way. Each
lock-protected section is one atomic step. `log` and `attempts` are history
variables: the results a target has been given, and the calls of ReplaceDefault.
Durations are in nanoseconds. Integers are unbounded here and 64 bits wide in the
source; no value of the running code outgrows the configuration it came from (a
pending count stays below the largest StableRounds so far, an interval below the larger of the base
interval and 100ms).

## What is claimed, and what is not

Some natural claims do not hold of the code. The proofs say exactly when they do.

- The route is left alone once it is in place only if the wanted gateway is
  written canonically (`MatchesIffCanonical`). While a legal gateway in another
  notation is wanted, every round makes exactly one call, whatever else happens
  (`SecondFormNeverSettles`); `SecondFormRun` is such a run, from a fresh start.
- An http target needs no address, so the winner may be unroutable, as it is for
  `corporate` in cmd/nexthop/example.yaml. Then the kernel keeps what it had
  (`ConvergeDichotomy`). Where addresses have to be canonical, only legal ones
  have to, unless the row says otherwise.
- The active gateway is empty until the first call, so a daemon started over a
  default route that is right already reports none while that route is the one
  wanted. Where something was called for, the report is the truth (`ReportIsTrue`).
- `finalActive`, which the status page explains as "all upstreams unavailable"
  (cmd/nexthop/ctl.go:64-66), compares two texts and is written only when a route
  is installed. Within one configuration it means that the route installed last is
  the fallback, whatever fails (`FlagFollowsReport`). It means what the page says,
  with the fallback's address apart and working routes, exactly under the
  condition of `FinalFlagMeansAllDown`. That fails for a daemon restarted over the
  fallback (`FlagAfterRestart`, `RestartOnFallback`) and for an http target without
  an address that comes up after the fallback (`FlagAfterPageUp`). After any single
  apply or reload, in any state, the flag is right exactly as `FlagAfterApply` and
  `FlagAfterReload` say, and `FlagIsStale` is a run on which a reload leaves it wrong.
- README.md:98-107 of the repository says the interval is halved to speed up a
  decision. At 100ms or below it is not shortened but stays at, or rises to,
  100ms (`ShortensIffAboveFloor`). The amortised bound holds for every interval.
- A comment says a target removed by a reload is skipped (internal/state/state.go:143).
  One that a second reload restores in the same round starts afresh and still takes
  the old round's result (`StaleResultArrives`).
- An empty line in the editor is meant to keep the current value
  (cmd/nexthop/config_tui.go:184). `EmptyLineKeeps` and `EmptyGlobalLineKeeps` say
  for which fields it does; `EmptyLineTrims` is a run of the editor in which it
  changes the egress device, on configurations such as those of `PaddedDevice`.

## Model

| member | source | states |
|---|---|---|
| Debounce.UpIsLatestConfirmed | internal/state/state.go:155-174 | over any history, with StableRounds free to change at each result, a target is up exactly if the latest result that closed a full window of agreeing results was a success |
| Debounce.PendingIsTrailingRun | internal/state/state.go:155-174 | the pending count is the length of the run of contrary results that ends the history, and points the other way than the state |
| Debounce.FlipsAreSpaced | internal/state/state.go:155-174 | any two flips of a target are at least StableRounds of its results apart |
| Selection.DesiredIsBest | internal/state/state.go:214-221 | the first live target of the sorted list is the one-pass best by weight, ties to the earlier entry; the fallback is wanted exactly when none is live |
| StableSort.StableOrderUnique | internal/config/config.go:196-204 | two stable descending orders of the same list are equal |
| StableSort.StableOrderPermutes | internal/config/config.go:196-204 | a stable order neither loses nor invents entries |
| Configuration.SortedTargets | internal/config/config.go:196-204 | the targets sorted by descending weight, equal weights in configuration order |
| Listing.SortedByWeight | cmd/nexthop/ctl.go:280-289 | the in-place insertion sort ends, with weights descending, and reaches the one stable order of its input |
| Configuration.ValidateTarget | internal/config/config.go:130-165 | the complaints about a target are exactly its defects; none means it is valid |
| Configuration.Validate | internal/config/config.go:86-128 | every complaint is justified, no defect goes without one, and there is none exactly for a well-formed configuration with distinct names |
| Configuration.NewProberServes | internal/probe/probe.go:25-38 | the prober built for a target is exactly the one of its method, aimed at the end point that method reads from it, with the given timeout |
| Configuration.NewProber | internal/probe/probe.go:25-38 | a prober is refused exactly for an unknown method or a ping target whose address is not IPv4 |
| Safety.ProbersServeOverRuns | internal/state/state.go:56-78 | in every reachable state each configured target's prober has its method, its end point and the configured timeout; the round in flight holds to its snapshot |
| Routing.ReloadKeepsProber | internal/state/state.go:250-263 | a target that a reload keeps goes on being probed in the same way exactly if its method, the end point that method reads and the timeout are unchanged |
| Configuration.TrimSpaceCuts | internal/config/config.go:101 | trimming cuts blanks off both ends and nothing else |
| Configuration.SpaceCodePoints | internal/config/config.go:101 | which characters are blanks, by code point |
| Safety.ValidIsBuildable | internal/probe/ping.go:25-31 | New and Reload never fail on a validated configuration |
| Machine.RoundPointwise | internal/state/state.go:140-175 | a round gives each of its targets still present its own result and no other entry anything; it reports a flip, or a contrary result, exactly if some target has one |
| Safety.InterleavingSafety | internal/state/state.go:102-275 | after any interleaving of snapshots, completions, applies, reload requests and route edits: the tables match the configuration name by name, every target of a round in flight has a prober, every filter is what its history makes of it, the interval is in bounds, the reported gateway is the last one installed |
| Safety.NextKeepsInv | internal/state/state.go:102-275 | each single step keeps all of that, for any state that has it |
| Safety.FlightOverRun | internal/state/state.go:102-131 | whatever happens before its apply, reloads included, a round in flight keeps the targets, probers and timeout of its snapshot and every result it has |
| Safety.DebounceOverRuns | internal/state/state.go:155-174 | in every reachable state every target's state is the one its own history decides, reloads included |
| Safety.ApplyLeavesNoFullWindow | internal/state/state.go:164-168 | after an apply no target waits with a full window, even if StableRounds was lowered during the round |
| Safety.ApplyReachesSnapshot | internal/state/state.go:140-175 | an apply changes exactly the snapshot's targets that are in the table now |
| Ordering.CompletionOrderIrrelevant | internal/state/state.go:113-131 | parallel probes may finish in any order: the round comes out the same |
| Ordering.ResultOrderIrrelevant | internal/state/state.go:140-195 | applying the same results in another order gives the same tables, interval and routing decision |
| Churn.CallsOfRun | internal/state/state.go:191-239 | the calls of any run, with their gateways and outcomes, are one for each round that flips a target or does not read the wanted gateway, and after which that is legal; none else |
| Churn.RetriedUntilItWorks | internal/state/state.go:199-239 | as long as a mismatch persists every round calls once more, and the first round that works leaves the gateway wanted then in the kernel, whatever the failures before it did |
| Routing.ConvergeDichotomy | internal/state/state.go:191-239 | if the route operations work, the kernel ends on the wanted gateway, or that is no legal address and the kernel is untouched |
| Routing.MatchesIffCanonical | internal/state/state.go:199-210 | a section whose route operations work ends with the route matching if and only if the wanted text is canonical |
| Routing.QuietRound | internal/state/state.go:177-195 | a round with no flip and its route in place moves only debounce counts and the interval |
| Routing.ReloadFrame | internal/state/state.go:247-268 | a successful reload keeps the debounce state of exactly the names it keeps; all others start down and empty |
| Routing.FailedReloadFrame | internal/state/state.go:250-258 | a failed reload leaves the kept targets ahead of the failing one with their new descriptions and changes nothing else: not the debounce state, the configuration, the tables' names, or the wanted gateway |
| Routing.SameReloadIsQuiet | internal/state/state.go:244-275 | reloading the configuration in use with its route in place changes the interval at most |
| Pacing.AcceleratedClosedForm | internal/state/state.go:178-184 | after k halvings the wait is the base divided by 2^k, not below 100 000 000 ns |
| Pacing.PacedSumBound | internal/state/state.go:177-189 | the waits of a run stay below the first wait, two base intervals per reset and 100ms per round, for every base interval |
| Pacing.ShortensIffAboveFloor | internal/state/state.go:180-184 | accelerating shortens the wait exactly above 100ms |
| Rounds.StepIsRound | internal/state/state.go:102-132 | a step of a run is what the events of one uninterrupted round do, in any completion order |
| Rounds.RunIsEvents | internal/state/state.go:82-99 | a run of rounds and foreign edits is what its events do one after the other |
| Rounds.AmortisedWaits | internal/state/state.go:82-93 | the waits of any run in one configuration are bounded by its first interval, its rounds with a flip, its rounds without a contrary result, and 100ms a round |
| Rounds.AcceleratingRun | internal/state/state.go:177-189 | k accelerating rounds in a row leave the starting interval halved k times, floored; their waits are exactly the accelerated ones and sum to less than that interval and 100ms a round |
| Rounds.DescentToFloor | internal/state/state.go:177-189 | on every run of six accelerating rounds from 5s the waits are 2.5s, 1.25s, 625ms, 312.5ms, 156.25ms and 100ms |
| Stabilisation.SelfStabilises | internal/state/state.go:135-239 | from any state satisfying the invariant, over any kernel: after StableRounds rounds of steady results every target is right and the interval is the base one; if the last round worked the route is the best live target's or the fallback's, or that is no legal address and the kernel is as it was; further such rounds flip nothing, leave the kernel alone, and call exactly if the wanted text is legal but not canonical |
| Stabilisation.StabilisesFromAnyRun | internal/state/state.go:102-275 | all of that after the events of such rounds that follow any interleaving of events from a fresh start, with no round in flight in between |
| Routing.ApplyDichotomy | internal/state/state.go:135-195 | the same for a whole round, by the gateway wanted after it |
| Stabilisation.DocumentedSwitch | README.md:98-107 | on every run of the documented example, 5s and three rounds, the failing target flips at the third result and the three waits come to 8.75s |
| Safety.NewKeepsInv | internal/state/state.go:56-78 | a manager made from a valid configuration starts in the invariant, with every target down and nothing routed or reported |
| Stabilisation.FailoverTime | internal/state/state.go:155-189 | a target that turns contrary flips at exactly its StableRounds-th contrary result, and the waits in between are the accelerated ones and obey the closed bound |
| Churn.FlipsPaid | internal/state/state.go:155-174 | each flip of a target uses up StableRounds rounds |
| Churn.AttemptsBound | internal/state/state.go:191-239 | with legal addresses written canonically, over any run each ReplaceDefault call is paid for by a legal gateway out of place at the start, a round with a flip, a foreign edit, or a failing round (two calls each) |
| Churn.BoundedChurn | internal/state/state.go:135-239 | T rounds call ReplaceDefault at most 1 + targets * (T / StableRounds) times, plus one per foreign edit and two per failing round |
| Churn.ChurnFromNew | internal/state/state.go:56-78 | the undisturbed bound for a manager just made |
| Reporting.ReportIsTrue | internal/state/state.go:224-239 | started over any kernel, with working operations, legal addresses written canonically and no foreign edits: every apply and reload leaves a legal wanted gateway in place and touches nothing for an illegal one; what is reported is in the kernel, or nothing was ever called for and the kernel is as found |
| Reporting.ReportFromBareKernel | internal/state/state.go:224-239 | started over no default route, reported, wanted and actual gateway agree after every apply and reload that wants a legal one |
| Reporting.FlagAfterApply | internal/state/state.go:192-237 | after any working apply, in any state and configuration, the flag is right exactly if a target flipped or the route was out of place and the gateway wanted is legal, or the old flag fits that gateway |
| Reporting.FlagFollowsReport | internal/state/state.go:231-237 | in one configuration, over any kernel and events, failures and foreign edits included, the flag says whether the gateway reported, the last one installed, is the fallback |
| Reporting.FinalFlagMeansAllDown | internal/state/state.go:231-237 | in one configuration, no target sharing the fallback's address, over any kernel and with foreign edits: the flag is set after an apply exactly when no target is up, if and only if: with none up, a route was installed before, a target flips, or the fallback is not found in place; with one up, its address is legal or the flag was unset |
| Reporting.FinalFlagFromOtherRoute | internal/state/state.go:231-237 | so it always is if all addresses are legal and canonical, nobody edits the route and the start is not over the fallback |
| Reporting.FlagAfterReload | internal/state/state.go:270-273 | after a working reload the flag is right exactly if the route was out of place and the gateway wanted is legal, or the old flag fits the new configuration |
| Reporting.FlagGoesStale | internal/state/state.go:270-273 | a reload that drops the routed target and makes its address the fallback leaves the flag wrong |
| Corners.FlagIsStale | internal/state/state.go:231-237 | a concrete run that ends so |
| Corners.RestartOnFallback | internal/state/state.go:191-194 | every start over a kernel already on the fallback, as long as rounds find nobody: nothing is called for, no gateway is reported and the flag is unset |
| Corners.FlagAfterRestart | internal/state/state.go:231-237 | a concrete such start, all targets down, the fallback routed and wanted, the flag unset |
| Corners.FlagAfterPageUp | internal/state/state.go:226-237 | a concrete run after which an http target without an address is up and the flag still set |
| Churn.SecondFormNeverSettles | internal/state/state.go:199-210 | over any run, failures and edits included, while the gateway wanted is legal but not canonical k rounds make exactly k calls |
| Corners.SecondFormRun | internal/state/state.go:209 | a valid configuration, over any kernel, whose k rounds with nobody reachable make k calls |
| Corners.StaleResultArrives | internal/state/state.go:141-145 | a target removed and restored by reloads during one round takes that round's result |
| RouteTable.DefaultExactly | internal/router/router.go:94-105 | the test accepts a missing destination and 0.0.0.0/0 in both address forms, and nothing else |
| RouteTable.SweptKeeps | internal/router/router.go:63-76 | however far the deletion got, other routes are intact and in order, and the defaults left are the end of the old list |
| RouteTable.FirstGatewayIs | internal/router/router.go:84-88 | the gateway read is that of the first default route that has one, by position in the table |
| Routers.Router.RemoveDefault | internal/router/router.go:63-76 | success leaves exactly the other routes; only a failing request makes it fail |
| Routers.Router.ReplaceDefault | internal/router/router.go:39-60 | other routes always survive in order; success leaves one default route, with the given gateway and the egress link's index; a bad link or gateway changes nothing; a later failure leaves the end of the old defaults |
| Routers.Router.CurrentDefault | internal/router/router.go:79-90 | reads the gateway of the first default route that has one, by position; none exactly if no default route has one |
| Managers.TargetState.Absorb | internal/state/state.go:155-174 | the object's update is the debounce step, recorded in its history |
| Managers.Manager.New | internal/state/state.go:56-78 | fails exactly as the machine does, and yields its initial state in separate objects |
| Managers.Manager.DesiredNexthop | internal/state/state.go:214-221 | the scan returns the gateway the machine wants |
| Managers.Manager.Converge | internal/state/state.go:191-210 | over the real router: one routing decision of the machine; if nothing fails the kernel's default is the wanted gateway or that is illegal and the table is as it was; a call that went through leaves the only default route, through the egress link; other routes are never touched |
| Managers.Manager.Reconcile | internal/state/state.go:224-239 | one reconciliation of the machine over the real router |
| Managers.Manager.ApplyResults | internal/state/state.go:135-195 | one apply of the machine, with the same end-to-end guarantee |
| Managers.Manager.Finish | internal/state/state.go:129-131 | closing a round is the machine's apply event whatever happened since its snapshot, and keeps the invariant |
| Managers.Manager.ProbeOnce | internal/state/state.go:102-132 | an uninterrupted round is one apply of the current targets |
| Managers.Manager.Run | internal/state/state.go:82-99 | the loop is a run of the machine and sleeps its waits; if its last call went through the only default route is that call's, through the egress link; if nothing fails and results are steady for StableRounds rounds the kernel's default is the best live target's gateway or the fallback, if legal |
| Managers.Manager.Snapshot | internal/state/state.go:103-111 | opening a round is the machine's snapshot event: the targets, probers and timeout in use, no results yet, in objects of its own |
| Managers.Manager.Do | internal/state/state.go:102-275 | whatever can happen next, a round opened, a probe finishing, a round closed, a configuration posted, the table edited by others, is one step of the machine |
| Managers.Manager.Drive | internal/state/state.go:102-275 | any commands in any order take the objects exactly through a run of the machine and keep the invariant, the round in flight included; if no request fails, every step works |
| Managers.Manager.Reload | internal/state/state.go:244-275 | the in-place rebuild, sharing retained objects, is the machine's reload, failing exactly on a target no prober can be built for |
| Managers.Manager.ApplyConfig | cmd/nexthop/run.go:40-49 | a configuration is accepted exactly if well formed, is then never refused by Reload, and the step keeps the invariant with a round in flight |
| Managers.Manager.Status | internal/state/state.go:290-306 | one entry for each target in the table, with its name, address, weight, probe and state, and the gateway and flag as stored |
| Keyboard.AnyKeysKeepSound | cmd/nexthop/config_tui.go:217-227 | over any keys: cursors in range, a captured index still a target, targets distinct and individually valid, only well-formed configurations sent |
| Keyboard.TargetsChangeOnly | cmd/nexthop/config_tui.go:278-390 | a key changes the targets only by a confirmed deletion, which drops the captured entry by position, or by a committed form, which adds its target at the end or puts it in its place |
| Keyboard.NavKeys | cmd/nexthop/config_tui.go:278-312 | what can be done while nothing is open: a new target starts as a ping target of weight 100, Enter opens the selected one as it is, only a well-formed configuration is sent, nothing is changed |
| Keyboard.PressInForm | cmd/nexthop/config_tui.go:314-350 | a form is edited on a copy: while it is open nothing but a commit changes the configuration |
| Editors.Editor.Handle | cmd/nexthop/config_tui.go:278-312 | each key is one step of the transition system; targets change by position as a confirmed deletion or a committed form says; an open or cancelled form leaves the configuration as it was |
| Editors.Editor.HandleForm | cmd/nexthop/config_tui.go:314-350 | each key in the form is its step; s writes back or changes nothing, decided by what was entered |
| Editors.Editor.HandleInput | cmd/nexthop/config_tui.go:352-390 | each key on the line is its step; a yes drops exactly the captured entry and the others keep their order; a rejected line changes nothing |
| Editors.Editor.CommitTargetForm | cmd/nexthop/config_tui.go:677-713 | the form is written back, at the end or in its target's place, if and only if the whole configuration is then well formed, that is, if the global fields are in order and every field its probe needs was given |
| Editors.Editor.DeleteTarget | cmd/nexthop/config_tui.go:721-742 | asks about the selected target, with "n" for an empty answer, and changes nothing yet |
| Editors.Editor.Save | cmd/nexthop/config_tui.go:746-761 | sends the configuration exactly if it is well formed |
| Editors.Editor.Run | cmd/nexthop/config_tui.go:217-227 | the loop handles the keys one after the other until one quits |
| Sessions.SelectRow | cmd/nexthop/config_tui.go:288-296 | any row can be selected from any other |
| Sessions.EditGlobal | cmd/nexthop/config_tui.go:117-148 | selecting row k and entering a line gives exactly the k-th global field the line's value, or, if that is not acceptable there, changes nothing; an empty line stands for the text shown |
| Sessions.EscapeLine | cmd/nexthop/config_tui.go:384-388 | Esc leaves a line for where it was opened; what was typed, or a pending deletion, has no effect |
| Sessions.DeleteAnswered | cmd/nexthop/config_tui.go:721-742 | selecting target i, d, an answer, Enter: entry i goes and the others keep their order exactly if the answer is a y between blanks; Enter alone deletes nothing |
| Sessions.AnyFormCanBeFilled | cmd/nexthop/config_tui.go:549-652 | from any state of any form there are keys after which it holds any given valid target that can be typed as it stands |
| Sessions.AddSession | cmd/nexthop/config_tui.go:667-713 | a, the fields, s: the new target is the last entry, the others are as they were |
| Sessions.ChangeSession | cmd/nexthop/config_tui.go:677-713 | selecting target i, Enter, the fields, s: entry i is changed in its place, the others are as they were |
| Sessions.LeaveSession | cmd/nexthop/config_tui.go:715-719 | whatever keys a form is given while it is open, Esc or q then close it over the configuration it was opened on |
| Forms.AcceptedField | cmd/nexthop/config_tui.go:549-652 | which lines each form field accepts; an accepted line gives the field its value and leaves the others alone, except that a probe wipes a port or URL it does not use |
| Forms.ShownField | cmd/nexthop/config_tui.go:549-652 | the text shown for a field reads back as its value; a missing port is shown as nothing |
| Forms.FieldsShown | cmd/nexthop/config_tui.go:549-652 | which fields a form shows; every field a known probe needs is among them |
| Forms.FormIsValidIffGiven | cmd/nexthop/config_tui.go:549-652 | after any lines in any order, from any start, the form holds a valid target under a free name if and only if each field its probe needs was fine at the start or accepted, and not wiped by a later change of probe |
| Forms.FormStaysClean | cmd/nexthop/config_tui.go:595-617 | a form that starts without a port or URL its probe does not use never gets one |
| Forms.CommitIff | cmd/nexthop/config_tui.go:677-713 | writing a target back, at the end or in its place, gives a well-formed configuration exactly if the other fields are in order, the target is valid and its name is free |
| Forms.RemoveKeepsGood | cmd/nexthop/config_tui.go:728-734 | deleting a target drops that entry, keeps the order of the others, and keeps them distinct and valid |
| Forms.EmptyLineKeeps | cmd/nexthop/config_tui.go:352-364 | an empty line keeps the form exactly for a field that can be entered again as it stands |
| Forms.EmptyGlobalLineKeeps | cmd/nexthop/config_tui.go:352-364 | the same for the global fields |
| Sessions.EmptyLineTrims | cmd/nexthop/config_tui.go:352-364 | four keys through the editor, the last an empty line, trim the egress device |
| Sessions.PaddedDevice | cmd/nexthop/config_tui.go:109-129 | a valid configuration those keys change |

## Left out

- Probing itself (sockets, ICMP, HTTP): a result is an arbitrary boolean; round-trip times, error texts and times of day are only displayed.
- YAML, loading and saving files: Validate and Reload are modelled, the file between them is not.
- The text of addresses, numbers and durations: a parameter, with the laws a result needs named in it.
- ApplyConfig: leaves out the save between validation and reload, so nothing is said about the file agreeing with the running configuration.
- SortedTargets: the library's stable sort is a function with its contract, not its algorithm.
- Run: the manager's loop has no cancellation, and nothing else happens between its rounds; Drive has reloads and foreign edits at any point.
- Reconcile: other processes edit routes between locked sections only, not between the requests of one ReplaceDefault.
- Status: the order of the entries, which in the source is that of a Go map.
- InFlight: one round is in flight at a time, as the single loop of Run has it; memory model and locks are taken for granted.
- Config: the pointer to the live configuration it hands out is not modelled; configurations are values.
- RouteAdd: the kernel refuses only an entry that is there already; where it lists a new entry is left open.
- Router: the egress device is fixed at start, so a reload that names another one changes nothing here either.
- Handle: input lines are sequences of characters where the source has bytes; messages on screen are left out, and so is the queue of input tasks, which nothing fills.
- Control server and client, installation, menus, the step-by-step wizard for new targets, rendering.
