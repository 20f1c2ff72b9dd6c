# Verified model of autormm's engines

autormm is a hub that watches a fleet of hosts through agents. Most of it is plumbing around a few
self-contained engines, and those engines carry promises that no single function shows: alerts that
alternate over whole runs, a registry that stays sound under any interleaving of handlers, a frame buffer
that is refreshed only in places and is nevertheless always the whole screen. This project models those
engines in Dafny and proves the promises. `dafny verify dfyconfig.toml` checks all of it.

| file | models |
|---|---|
| `Alerts.dfy`, `Remediation.dfy` | the alert state machine and the attempt budget |
| `AlertLoop.dfy`, `AlertHub.dfy` | the loop that joins them, step by step |
| `Alternation.dfy`, `Sustain.dfy`, `Escalation.dfy` | over whole runs of it: what is sent, when conditions fire and resolve, how long fixes are tried |
| `Persistence.dfy` | what the budget means for one condition: when its alert gets through, and when its budget comes back |
| `Fleet.dfy` | the ticks the hub really makes |
| `Registry.dfy` | three connection slots per host, and the handlers that fill, displace and empty them |
| `DesktopCapture.dfy` | incremental conversion of desktop frames, and the capturer that asks for them |
| `Topology.dfy` | the network map: inferred links, invented nodes, folding, deduplication, pruning |
| `MapRecords.dfy` | what each record means for that map |
| `LinkRate.dfy` | the bandwidth estimator |
| `JsonPath.dfy` | the path language and the table probe |
| `HostPrefs.dfy` | layered settings, watch lists and the choice of a fix |
| `Dispatch.dfy` | handing jobs to one pinned worker |
| `Syslog.dfy` | the circular log store |
| `ExecOutput.dfy` | the bounded output collector and its registry |
| `Sweep.dfy` | the walk over a local network |
| `CursorBlend.dfy` | a cursor's alpha recovered from two renderings |
| `Optional.dfy`, `Sequences.dfy`, `Text.dfy`, `Bytes.dfy` | what several of them share |

Objects whose methods update their fields are classes with those fields; each method is proved against a
function of the old state, and the promises are proved about that function or about whole runs of it. Locked
methods are atomic, the clock is an argument, and where the source ranges over a map the model takes the keys
in an arbitrary order. Where several goroutines meet (`AlertLoop`, `Registry`, `Dispatch`) the model is a
state machine over their steps: the alert loop takes its locks one after the other, and a host can be forgotten
between any two of them.

## Where the code and its description part

- The comment at `server/alerts.go:218-221` says that what is firing resolves when a host is silenced. It does
  not: a condition without a rule is not visited, so its state stays as it was (`Sustain.SilencedStaysFrozen`).
- Alerts for a condition alternate unless its host is forgotten after a transition was evaluated and before it is
  sent. Then the queue speaks for a state that is gone, and two fires or two recoveries in a row can follow
  (`Alternation.AlternationIsExact`, `Alternation.ForgottenHostAlertsTwice`).
- An alert that keeps firing is sent after three failed fixes only if those fall inside one hour. With gaps of
  a third of the window or more the budget never runs out and the alert is never sent
  (`Escalation.SlowFailuresNeverEscalate`); with gaps below that, one of any four firings is sent
  (`Persistence.OneOfFourIsSent`).
- The comment at `server/remediate.go:104-106` says that recovery gives a condition its full budget back. After a fix
  that worked there is no recovery to act on, because the alert was held: the attempt stays counted for its hour, and
  a service that is repaired three times in an hour is not repaired a fourth time
  (`Persistence.BudgetsReturnOnlyAfterAnAlert`, `Persistence.WorkingFixesSpendTheBudget`).
- The budget key joins agent and rule with a bar, so two conditions can share a budget, but only if an agent id
  and a watched service both have a bar in their names (`Escalation.BudgetKeysCollideExactly`,
  `Escalation.CollisionsNeedTwoBars`, `Escalation.BudgetKeysDoCollide`).
- `canExec` holds without a connection to run on for exactly the hosts that advertise exec and have only their
  console worker attached (`Registry.CanExecHasConnectionUnlessConsoleOnly`).
- The comment at `server/store.go:195-197` says streaming needs the interactive connection specifically. A console
  worker serves as well (`Registry.CanStreamHasScreen`).
- When the gateway is itself a listed device, folding can draw a line from it to itself and can put an inferred
  line on a port that carries a reported one; exactly when is `Topology.LoopsOnlyFromFoldedRoot` and
  `Topology.InferredLinesInTransitExactly`, and `Topology.ListedGatewayLoops` and `Topology.ListedGatewayMixesPorts`
  are instances.
- With a space between key and bracket, and exactly then, a table probe and the indexed path can read different
  fields (`JsonPath.AgreementIsExactlyForTrimmedKeys`).
- Fixes of equal rank are not put in order, so which one runs can depend on map iteration
  (`HostPrefs.FixDependsOnOrderExactlyOnTies`, `HostPrefs.TwoTagsTie`).
- The collector's flag is also set when nothing was dropped, if an empty message follows a full buffer
  (`ExecOutput.TruncatedExactly`, `ExecOutput.FlagWithoutLoss`).

## Model

| member | source | states |
|---|---|---|
| Alerts.Alerter.Evaluate | server/alerts.go:139-180 | one tick visits every (host, rule) pair in order; new states and returned transitions are those of the one-condition step folded over them |
| Alerts.Alerter.Visit | server/alerts.go:145-177 | the sticky clear, the sustain clock, firing and resolving of one condition, and exactly one transition when the firing flag changes |
| Alerts.Alerter.Hold | server/alerts.go:119-126 | an existing condition stops firing and its sustain clock restarts; an unknown one is not created |
| Alerts.Alerter.Forget | server/alerts.go:386-394 | the states of one host go, all others stay |
| Alerts.TickIsPointwise | server/alerts.go:145-178 | a visited condition moves by its own step alone, and one without a rule this tick keeps its state |
| Alerts.TransitionsAreFlips | server/alerts.go:139-180 | the transitions of a tick are exactly the conditions whose firing flag changed, once each |
| Alerts.StatesShowTheLastLook | server/alerts.go:153-153 | what is kept of a condition is the host and the value seen last |
| Alerts.TransitionsTell | server/alerts.go:288-292 | each transition carries the value just seen, the host by its name or else its id, and since when it fires or had fired |
| Alerts.OwnNamesOwnKeys | server/alerts.go:148-150 | hosts with their own ids and rules with their own names never meet in one key |
| Alerts.RuleNamesAreDistinct | server/alerts.go:215-286 | the rules produced for a host, built-in and per watched service, have distinct names |
| Alerts.RulesSay | server/alerts.go:215-285 | a host that is not silenced is always checked for being there, active exactly while it is offline; for its metrics only while it is online; and for its watched services |
| Alerts.MetricRulesSay | server/alerts.go:225-265 | each level is the host's own if that is positive and else the global one, checked if positive and active exactly from the level on; drives are checked if there are any and active exactly if one fails |
| Alerts.ServiceRulesSay | server/alerts.go:271-284 | a watched service is checked exactly if it was reported on, and active exactly while it does not run |
| Alerts.FullestIs | server/alerts.go:256-261 | the disk level is compared with the fullest disk |
| Remediation.Remediator.Allow | server/remediate.go:43-58 | the in-place filter and the append answer and leave the budget that the attempts inside the window call for |
| Remediation.Filter | server/remediate.go:46-51 | filtering a slice into its own backing array keeps exactly the recent attempts, in order |
| Remediation.Remediator.Clear | server/remediate.go:62-66 | one condition's history is forgotten and no other |
| Remediation.BudgetDecidesLikeHistory | server/remediate.go:46-57 | the filtered budget decides as if every allowed attempt had been kept: yes exactly when fewer than three fall in the window |
| Remediation.AppendStaysWithin | server/remediate.go:52-57 | allowing an attempt when the budget says so keeps any four successive attempts from falling in one window |
| Remediation.SpacedAttemptsNeverRefused | server/remediate.go:43-58 | attempts a third of the window apart are never refused |
| AlertHub.Hub.Poll | server/alerts.go:99-99 | a tick's evaluation replaces the queue of transitions and is one step of the run |
| AlertHub.Hub.TryRemediate | server/remediate.go:101-157 | when a fix holds the alert, and what happens to the budget: cleared on recovery, charged even if the script cannot be read |
| AlertHub.Hub.AskForFix | server/alerts.go:102-102 | asking for a fix of the transition in hand is one step of the run and settles whether it will be held |
| AlertHub.Hub.CarryOut | server/alerts.go:102-106 | the transition in hand is held if a fix ran and sent otherwise, one step later |
| AlertHub.Hub.ForgetHost | server/alerts.go:386-394 | forgetting a host is a step of the run that may come between any two others |
| AlertLoop.StepsTakeTurns | server/alerts.go:99-107 | the loop does not look again before its transitions are dealt with, asks for a fix of each once, and sends or holds none before it asked |
| AlertLoop.ConditionsAreIndependent | server/alerts.go:139-180 | in every run the state of a condition is what its own events make of it |
| Alternation.DispatchesAlternate | server/alerts.go:92-126 | in every run that forgets the host of a condition only while none of its transitions is on its way to be sent, each alert sent turns over what was last said |
| Alternation.ForgettingKeepsHarmonyExactly | server/alerts.go:386-394 | a forget keeps engine and audience in agreement about a condition if and only if no transition of it is on its way to be sent |
| Alternation.HarmonyIsExact | server/alerts.go:92-126 | in any state with an orderly queue, every careful continuation alternates if and only if engine and audience agree or are about to |
| Alternation.RunsAreInHarmonyExactly | server/alerts.go:92-126 | and every state that a run can reach is such a state |
| Alternation.ForgettingInFlightBreaks | server/alerts.go:99-107 | after any careful run, a forget of a host whose transition is on its way leads by ordinary steps to two alerts of one kind in a row, whatever the rule of the condition and its duration |
| Alternation.AlternationIsExact | server/alerts.go:92-126 | a run forgets the host of a condition only while none of its transitions is on its way if and only if its alerts alternate wherever it is broken off and whatever ordinary steps follow |
| Alternation.ForgottenHostAlertsTwice | server/http.go:695-697 | for every condition, rule and duration, ticks ten seconds apart until it fires and a forget before that is sent are enough, in a run whose clock moves on |
| Alternation.AlternationInOrder | server/alerts.go:99-107 | alternation read off as a sequence: fire first, then resolve, fire, and so on |
| Alternation.FireResolveFire | server/alerts.go:113-126 | without a forget, the alerts sent for one condition are fire, resolve, fire, so no recovery is announced for a held alert |
| Sustain.FiresOnlyWhenSustained | server/alerts.go:161-169 | at each firing every evaluation since the clock started found the rule active, and the span reaches its duration |
| Sustain.FiresWhenSustained | server/alerts.go:161-169 | conversely, a condition that every evaluation since a look or a hold found true fires at the first one after its duration, if the clock moves forward |
| Sustain.RefiresWhenDue | server/alerts.go:119-126 | a condition that stays true after a hold fires again at the first evaluation that finds its duration over, and at none before |
| Sustain.ResolvesExactlyBelowMargin | server/alerts.go:155-176 | a firing condition stops at an evaluation if and only if that is inactive and not within five below a threshold |
| Sustain.ResolvesOnlyBelowMargin | server/alerts.go:155-176 | a firing condition that is neither held nor forgotten stops only at an evaluation that is inactive and, for a threshold, below it by more than the margin |
| Sustain.SilencedStaysFrozen | server/alerts.go:215-224 | while a condition has no rule its state does not change and nothing is sent for it |
| Escalation.BudgetKeysCollideExactly | server/remediate.go:102-102 | two conditions share a budget key if and only if one's agent id consists of the other's and the front of its rule name |
| Escalation.CollisionsNeedTwoBars | server/remediate.go:102-102 | that takes a bar in an agent id and one in a rule name |
| Escalation.BudgetKeysDoCollide | server/remediate.go:102-102 | two conditions that share one |
| Escalation.RunIsSound | server/remediate.go:43-58 | in every timely run the budget stored under a key is the tail of the whole history of attempts under it, and every hold is owed to an attempt of its own |
| Escalation.HoldsStayWithinBudget | server/remediate.go:26-31 | no four successive holds for one budget fall within one window |
| Escalation.EscalatesExactlyWithoutBudget | server/alerts.go:99-107 | the alert in hand is held if and only if a readable script is configured for a host that is there and fewer than three attempts under its budget key fall in the window, whatever is forgotten meanwhile; otherwise it is sent |
| Escalation.NothingToRunIsSent | server/remediate.go:110-125 | in every run an alert without a script configured, with an empty one or of a host that is not there is sent, and its budget is not touched |
| Escalation.HeldMeansFixRan | server/remediate.go:101-157 | in every run an alert that is held fires, and has a readable script and a host that is there |
| Escalation.AskingIsCharged | server/remediate.go:103-126 | asking for a fix clears the history on a recovery, adds one attempt when there is a fix within budget, also if its script cannot be read, and does nothing else |
| Escalation.ThreeHoldsThenTheAlert | server/remediate.go:126-136 | after three holds for its budget inside one window the alert is sent |
| Escalation.SlowFailuresNeverEscalate | server/remediate.go:43-58 | for every m there is a run of m ten-second ticks with a condition true at each, a failed fix every twenty minutes and nothing sent |
| Escalation.SlowFailuresAreTimely | server/alerts.go:92-111 | that run is an ordinary one: the clock moves forward, nobody is forgotten and no condition is visited twice in a tick |
| Persistence.OwnBudgetIsOwnHistory | server/remediate.go:102-102 | if no other condition of the run shares its budget, all that was tried, held, sent or cleared under it was for this condition |
| Persistence.OwnHoldsStayWithinBudget | server/remediate.go:26-31 | then no four alerts of the condition in a row are held within one window |
| Persistence.OneOfFourIsSent | server/alerts.go:99-126 | if every look finds a condition true and its sustain time, the gap between looks, the wait for the fix and the fix together take less than a third of the window, one of any four successive firings is sent |
| Persistence.BudgetsReturnOnlyAfterAnAlert | server/remediate.go:103-109 | in every careful run a budget is given back only when the last that was said about the condition was that it fires |
| Persistence.WorkingFixesSpendTheBudget | server/remediate.go:103-109 | a condition without duration that fails every twenty seconds and is repaired each time is not announced three times, and the fourth time it is, without a fix |
| Persistence.WorkingFixesAreTimely | server/alerts.go:92-111 | that run is an ordinary one: the clock moves forward, nobody is forgotten and no condition is visited twice in a tick |
| Fleet.PollsAreOrderly | server/alerts.go:145-150 | ticks made from the registry and resolved settings visit a condition at most once |
| Fleet.PollHasNoBars | server/alerts.go:271-284 | they bring a bar into a rule name only by a watched service that has one |
| Fleet.SilenceIsExact | server/hostprefs.go:52-54 | a host is checked for nothing exactly while it is muted or its window is not over |
| Fleet.WithoutBarsBudgetsAreOwn | server/remediate.go:102-102 | without such a service every condition has a budget of its own |
| Registry.Store.Register | server/store.go:51-80 | the slot of the connection's role is filled, its previous holder is returned, identity follows the interactive agent |
| Registry.Store.Disconnect | server/store.go:99-116 | only the slots holding this connection are emptied and online is recomputed |
| Registry.Store.Remove | server/store.go:380-392 | a host goes only when nothing is attached, and the answer says which case it was |
| Registry.Store.UpdateMetrics | server/store.go:119-131 | metrics reach an existing host and never create one |
| Registry.AgentConn.SendJSON | server/agentconn.go:36-48 | a message is queued, or a full queue closes the connection |
| Registry.AgentConn.Close | server/agentconn.go:50-55 | the connection is closed, once however often it is asked |
| Registry.RegisterFillsOneSlot | server/store.go:51-80 | registering changes one slot of one host, whose identity is the interactive agent's if there is one |
| Registry.ActKeepsInv | server/http.go:527-538 | each step of each handler keeps slots, hosts and connections consistent |
| Registry.EveryInterleavingIsSound | server/http.go:527-538 | so does every interleaving of them |
| Registry.OnlineExactlyWhenAttached | server/store.go:76-79 | a host is online exactly while an undisplaced connection of it is attached |
| Registry.OneSlotPerConnection | server/store.go:51-80 | a connection sits in at most one slot of the whole registry, and that of its own host |
| Registry.OutOfSlotMeansClosing | server/http.go:527-534 | a running connection outside its slot was displaced, and if it is still open its close is pending |
| Registry.InteractiveOwnsIdentity | server/store.go:57-75 | with an interactive agent attached, the host's identity is that agent's registration |
| Registry.LateDisconnectEvictsNothingElse | server/store.go:99-116 | a disconnect, however late, empties only the slot that holds this very connection |
| Registry.EvictedOnlyBySelfOrSuccessor | server/store.go:51-116 | only its own end or a successor in the same role takes a connection out of its slot |
| Registry.HostsLeaveOnlyEmpty | server/store.go:380-392 | a host leaves the registry only by a removal with nothing undisplaced attached |
| Registry.AllFinishedAllRemovable | server/agentconn.go:83-87 | once every handler has finished, every host is offline and removable |
| Registry.CommandsRunPrivileged | server/store.go:217-231 | commands run on the privileged helper whenever one is attached, else on the interactive agent, else on nothing |
| Registry.ScreensFollowTheConsole | server/store.go:88-97 | screens are served by the console worker whenever one is attached, else by the interactive agent, else by nothing |
| Registry.CanExecExactly | server/store.go:205-215 | canExec holds exactly if a privileged helper is attached, or anything is and the host advertises exec |
| Registry.HostsShowTheLastReport | server/store.go:119-131 | after any run a host shows the metrics last reported since it joined, and when it last registered or reported |
| Registry.OnlyReadersReport | server/agentconn.go:83-107 | a connection whose handler does not read it reports nothing |
| Registry.ConnectionsCanRegister | server/http.go:527-538 | a new connection can register at any time, and then holds the slot of its role |
| Registry.HandlersCanFinish | server/agentconn.go:83-87 | from any state each handler can be run to its end by its own steps, and has then left every slot |
| Registry.CanExecHasConnectionUnlessConsoleOnly | server/store.go:207-231 | exactly when canExec holds although there is no connection to execute on |
| Registry.ConsoleOnlyHostIsReachable | server/store.go:57-66 | one console worker registering reaches that case |
| Registry.CanStreamHasScreen | server/store.go:195-203 | a host can stream if and only if it advertises it and an interactive agent or console worker is attached, and is served from one of these |
| DesktopCapture.ConvertRow | internal/capture/dxgi_windows.go:315-325 | one row of one rectangle becomes the frame's pixels, swizzled and opaque, and every other byte stays |
| DesktopCapture.ConvertRect | internal/capture/dxgi_windows.go:300-326 | the same for a rectangle clipped to the frame |
| DesktopCapture.ConvertRects | internal/capture/dxgi_windows.go:288-327 | the same for all the rectangles together |
| DesktopCapture.DxgiSource.Convert | internal/capture/dxgi_windows.go:288-327 | without a buffer or without rectangles the whole frame is shown, otherwise the buffer is refreshed inside them |
| DesktopCapture.DxgiSource.Grab | internal/capture/dxgi_windows.go:187-249 | every outcome of one call: restart, timeout, lost access, no change, failure, image, with the buffer, damage and held flag each leaves |
| DesktopCapture.OutcomesExactly | internal/capture/dxgi_windows.go:187-249 | a call fails exactly if a needed start fails, the driver fails or a frame is lost on the way, and returns an image exactly if a frame with something new comes through |
| DesktopCapture.SourceSurvives | internal/capture/dxgi_windows.go:187-207 | after a call there is a duplication of the region asked for unless it could not be made or access was lost, and calls without an image keep the last one |
| DesktopCapture.LostAccessIsMadeGood | internal/capture/dxgi_windows.go:203-207 | a lost access is answered with no change, and the next call that starts and gets a frame returns the whole of it with unknown damage |
| DesktopCapture.DxgiSource.Close | internal/capture/dxgi_windows.go:170-177 | the held frame is released and the buffer dropped |
| DesktopCapture.ToImageRects | internal/capture/dxgi_windows.go:273-282 | the driver's rectangles in canonical form, in order |
| DesktopCapture.ShowingIsUnique | internal/capture/dxgi_windows.go:284-287 | a buffer that shows a frame is its one whole conversion |
| DesktopCapture.RefreshingChangesIsEnough | internal/capture/dxgi_windows.go:284-327 | refreshing where two frames differ turns the conversion of one into that of the other |
| DesktopCapture.GrabKeepsInv | internal/capture/dxgi_windows.go:187-249 | a grab that does not fail keeps the buffer equal to the conversion of the driver's last frame |
| DesktopCapture.EveryImageIsWhole | internal/capture/dxgi_windows.go:187-249 | over every session with an honest driver, across rebuilds, region changes, lost access and lost frames, each image is the whole conversion of the current frame |
| DesktopCapture.DamageCoversEveryChange | internal/capture/dxgi_windows.go:235-248 | the reported damage is nil or covers every pixel that differs from the image returned before |
| DesktopCapture.DamageIsKnownExactly | internal/capture/dxgi_windows.go:233-248 | over every session the damage of an image is the driver's rectangles exactly if an earlier image of the region still stands and the driver gave any; no frame is held between calls |
| DesktopCapture.ShownPixels | internal/capture/dxgi_windows.go:317-324 | byte by byte: blue, green and red change places and every pixel is opaque |
| DesktopCapture.CanonicalHolds | internal/capture/dxgi_windows.go:273-282 | a rectangle in canonical form holds the pixels between its corners, whichever way they were given |
| DesktopCapture.ScreenCapturer.Capture | internal/capture/capture_screenshot.go:121-151 | the source is asked while there is one, its damage passed on, and a failure ends it for good in favour of screenshots with unknown damage |
| DesktopCapture.FailedSourceWouldBeStale | internal/capture/capture_screenshot.go:134-142 | why it is ended: a source asked again after losing a frame could return a stale image, with an honest driver |
| Topology.ReadDevices | server/topology.go:297-400 | the records become known nodes, reported links, sightings and gateway votes |
| Topology.FindTransit | server/topology.go:409-419 | the ports that carry reported links and the addresses these attach |
| Topology.ClaimSightings | server/topology.go:420-441 | each sighting is transit, a link or a leaf, by port, attachment and place |
| Topology.ClaimedAreLinks | server/topology.go:421-441 | claimed and unclaimed sightings are local, the claimed lead to known addresses and each address is claimed once |
| Topology.InventEnds | server/topology.go:449-463 | every end of a link that nobody knows gets an invented node |
| Topology.AdoptGateways | server/topology.go:467-483 | gateways are invented on two votes, marked, and one of those on the map becomes the root, in any order |
| Topology.FoldAliases | server/topology.go:491-509 | invented nodes in the root's block disappear and their links are renamed, in any order |
| Topology.DedupeEdges | server/topology.go:550-580 | one line for each pair of ends on the map, the first of maximal detail |
| Topology.PruneNodes | server/topology.go:519-528 | invented nodes without a line are dropped and no other |
| Topology.RootOf | server/topology.go:598-611 | a node with the most lines |
| Topology.UnifiTopology | server/topology.go:286-542 | the whole builder satisfies the declarative description of a map built from the records |
| Topology.EveryDeviceIsDrawn | server/topology.go:297-325 | every listed device is on the map and no address is there twice |
| Topology.LinesAndInventionsMeet | server/topology.go:513-528 | both ends of every line are on the map and every invented node has a line |
| Topology.EveryLinkIsOneLine | server/topology.go:544-580 | every link is drawn as the one line of its cable, in a copy at least as detailed |
| Topology.RootIsDrawn | server/topology.go:529-541 | the root is on the map unless that is empty, and where no gateway is there it has the most lines |
| Topology.NoInferredLinkInTransit | server/topology.go:402-431 | no inferred link leaves a port with a reported one |
| Topology.InferredLinesInTransitExactly | server/topology.go:402-542 | an inferred and a reported line are drawn on one port if and only if a reported link of an address folded into the root meets an inferred one on the root's port of that number and both are the copies drawn; never if the root is not a listed device |
| Topology.NoInferredLineInTransit | server/topology.go:402-431 | so an inferred line shares its port with no reported line unless the root is a listed device |
| Topology.ListedGatewayMixesPorts | server/topology.go:491-509 | records of a listed router for which it happens among the lines drawn |
| Topology.LoopsOnlyFromFoldedRoot | server/topology.go:491-509 | a line from a node to itself is drawn if and only if a link joins the root to another of its own addresses, and then the root is a listed device |
| Topology.ListedGatewayLoops | server/topology.go:491-509 | records of a listed router for which it happens |
| Topology.SightingsAreCounted | server/topology.go:437-440 | each unclaimed sighting is counted on exactly one node and nothing else is |
| Topology.AttachKnown | server/topology.go:240-283 | which sightings become named nodes and lines, and what each count becomes |
| Topology.NamingConservesLeaves | server/topology.go:278-281 | on a built map every count ends as the node's unclaimed sightings minus those named, so the guard never stops a decrement |
| Topology.NamingKeepsTheMap | server/topology.go:257-276 | naming adds exactly the attached addresses and draws none twice |
| MapRecords.ReadExactly | server/topology.go:304-400 | the reported links are those that uplink and neighbour records name, with their ports at the ends the records say, and the sightings those of the port tables |
| MapRecords.OneDeviceInOrder | server/topology.go:328-366 | of a device the uplink record comes first and then its neighbours in their order |
| MapRecords.FirstSightingClaims | server/topology.go:422-436 | of several sightings of one address the first that counts makes the link |
| MapRecords.TransitIsReported | server/topology.go:402-421 | a port is transit, and an address attached, exactly if a record reports a link there |
| MapRecords.NeighbourPortsClaimNothing | server/topology.go:402-427 | no link is inferred and no leaf counted on a port where a device hears a neighbour |
| MapRecords.UplinkPortsClaimNothing | server/topology.go:402-427 | nor at either port of an uplink record |
| MapRecords.WhatBecomesOfASighting | server/topology.go:422-442 | an address seen is nothing on a transit port or if reported elsewhere, else one link if it is on record or a way out, and else a leaf |
| MapRecords.ReportedLinksAreRecords | server/topology.go:304-366 | the links that are not inferred are exactly those of the records |
| MapRecords.InferredLinksAreSightings | server/topology.go:422-442 | inferred links and leaves are sightings |
| MapRecords.InferredLinksDiffer | server/topology.go:425-436 | no two inferred links lead to one address |
| MapRecords.NeighboursAreJoined | server/topology.go:352-366 | every neighbour is joined by a line to the device that hears it, after folding |
| MapRecords.UplinksAreJoined | server/topology.go:331-342 | every device is joined by a line of uplink evidence to what it says it hangs off, after folding |
| MapRecords.BestRecordIsDrawn | server/topology.go:544-594 | of all links between two addresses the first of the best is drawn: an uplink record beats any other, and otherwise the one that names more ports |
| MapRecords.LinesAreRecords | server/topology.go:304-400 | every line is a record with its ports, speed and evidence, between the addresses as drawn |
| MapRecords.FoldedExactly | server/topology.go:485-509 | which addresses are drawn as the root's own |
| MapRecords.WaysExactly | server/topology.go:463-483 | a way out is an address that a device names and that is on record or linked, or that two devices name |
| MapRecords.RootIsTheWayOut | server/topology.go:527-541 | a way out that is drawn is the root, and else a node with the most line ends |
| MapRecords.LeavesAreCounted | server/topology.go:437-440 | the count on a node is the number of leaves its device saw |
| MapRecords.ListedNodesShowTheirRecords | server/topology.go:312-322 | a listed device is drawn as its last record says, and as the gateway if it is one |
| MapRecords.NamedNodesShowTheirNames | server/topology.go:343-347 | a device that only a neighbour names is a switch of that name |
| MapRecords.InventedNodesSayLittle | server/topology.go:444-483 | anything else is the gateway or a device named after its maker |
| MapRecords.DrawnExactly | server/topology.go:511-526 | drawn is what is on record, and what is at the end of a line |
| MapRecords.NamedExactly | server/topology.go:240-276 | a leaf becomes a node exactly if the hub knows it, it is not drawn yet and it was seen off the ports that carry lines |
| MapRecords.NamedNodesSayWhatIsKnown | server/topology.go:270-276 | such a node says what the hub knows, and hangs off the port it was seen on |
| LinkRate.LinkEstimator.Observe | agent/linkrate.go:98-112 | a write is counted in the window, which closes when its time is over |
| LinkRate.LinkEstimator.Roll | agent/linkrate.go:116-216 | the three ways a closing window moves the estimate, in their order, and the reset of the window |
| LinkRate.LinkEstimator.ObserveReceived | agent/linkrate.go:224-255 | backlog, delivery rate and counters after a report, and the restart on a counter that went back |
| LinkRate.Run | agent/linkrate.go:323-331 | after any writes and reports the estimate lies between 600 kbit/s and 25 Mbit/s |
| LinkRate.BlockedWindowCuts | agent/linkrate.go:191-194 | a window blocked for a tenth of its time ends at nine tenths of what was sent, unless the estimate was lower or that is below the floor |
| LinkRate.ThirdDeepWindowCuts | agent/linkrate.go:165-190 | the third deep window in a row ends likewise at 1.05 times the received rate, and the count starts again |
| LinkRate.UnblockedWindowProbes | agent/linkrate.go:195-212 | any other window raises the estimate by 8% if it used 70% of it, up to the ceiling, and leaves it otherwise |
| LinkRate.DeepWindowsAreCounted | agent/linkrate.go:154-158 | windows that end with more than half a second outstanding are counted until one does not |
| LinkRate.WindowsFollowEachOther | agent/linkrate.go:98-112 | the first write opens a second's window, and each window that closes is followed by an empty one |
| LinkRate.WindowsHoldTheirWrites | agent/linkrate.go:98-112 | over every run a window holds exactly what was written, and how long it was blocked, since the one before closed |
| LinkRate.BlockedLinkIsFound | agent/linkrate.go:126-142 | over every run on a link that pushes back at C, the estimate is at most the floor or 0.9 C from the first window on |
| LinkRate.ThrivingLinkIsProbed | agent/linkrate.go:195-198 | over every run of unblocked windows that use 70%, the estimate grows by 8% a window up to the ceiling |
| LinkRate.ReportsAreNoted | agent/linkrate.go:237-254 | a report is noted with its time, its total and what was sent until then, and moves neither the estimate nor the window |
| LinkRate.ReceivedRateIsSmoothed | agent/linkrate.go:238-248 | the first received rate is taken as it is and later ones with a weight of 0.4 |
| LinkRate.OtherEventsLeaveTheRate | agent/linkrate.go:238-248 | reports without more bytes or time, and writes, leave the rate as it is |
| LinkRate.ReceivedRateIsBetween | agent/linkrate.go:238-248 | over every run the smoothed rate lies between the rates measured |
| LinkRate.ResetStartsAnew | agent/linkrate.go:249-254 | a counter that went back starts a new account and leaves the estimate |
| LinkRate.EstimateStaysNearCapacity | agent/linkrate.go:166-212 | if no window carries more than C the estimate never exceeds the start, the floor and 1.08 C / 0.7 |
| LinkRate.CalmNeverCuts | agent/linkrate.go:160-212 | without blocked writes and deep backlog at any roll the estimate never decreases |
| LinkRate.CutsNeedEvidence | agent/linkrate.go:160-212 | every cut happens at a closing window, with blocked writes or with a deep queue and two short windows counted |
| LinkRate.QuietCutsNeedThreeDeepWindows | agent/linkrate.go:160-190 | in every run, a cut without blocked writes comes at the third window in a row that closes with a deep queue |
| LinkRate.BacklogIsOutstanding | agent/linkrate.go:224-255 | without a counter reset the backlog is at most eight times the bytes sent and not reported received |
| LinkRate.BacklogIsExactlyWhatIsLate | agent/linkrate.go:224-255 | over every run without a reset the backlog is what was sent before the report before the last and is not in the last |
| LinkRate.DeliveringLinkHasNoBacklog | agent/linkrate.go:160-164 | a link that delivers by the next report what was sent before the previous one never counts a short window |
| LinkRate.OnlyBlockingCutsDeliveringLink | agent/linkrate.go:160-212 | on such a link only blocked writes cut the estimate |
| JsonPath.Path | server/jsonprobe.go:408-447 | the interpreter's loop walks the segments one after the other |
| JsonPath.PathsCompose | server/jsonprobe.go:408-447 | walking two paths joined by a dot is walking one and then the other |
| JsonPath.NameReadsField | server/jsonprobe.go:408-447 | a plain name reads the field of that name and nothing else |
| JsonPath.NumberReadsElement | server/jsonprobe.go:421-428 | a number reads that element of an array that is long enough |
| JsonPath.OtherNamesReadNoElement | server/jsonprobe.go:421-428 | other names read an element only if they are signed numbers of one |
| JsonPath.SelectorReadsFirstRow | server/jsonprobe.go:524-550 | key[field=want] reads the first row whose field prints as wanted, and nothing if there is none |
| JsonPath.BlankSegmentsReadNothing | server/jsonprobe.go:411-414 | blank segments are passed over |
| JsonPath.FindWildcard | server/jsonprobe.go:461-472 | the first wildcard segment, its label field, and the segments with only the key left |
| JsonPath.ProbesAreTakenApart | server/jsonprobe.go:461-472 | a path with a segment key[*field] is taken apart into what comes before it, key, field and the rest |
| JsonPath.OnlyStarsAreWildcards | server/jsonprobe.go:461-472 | a segment without a selector, or whose selector does not start with a star, is no wildcard |
| JsonPath.ExpandProbe | server/jsonprobe.go:460-512 | whether there is a wildcard, and the readings of the table it locates |
| JsonPath.ReadRows | server/jsonprobe.go:484-511 | the loop over the rows: value, label and group of each row that resolves |
| JsonPath.ReadingsFollowRows | server/jsonprobe.go:484-511 | the readings are those of the rows where the rest resolves, all of them, in row order |
| JsonPath.ReadingsSay | server/jsonprobe.go:484-511 | each reading has the value the rest of the path leads to in its row, the row's label field if it prints as something and else its number, and the probe's group |
| JsonPath.AtoiOfItoa | server/jsonprobe.go:424-428 | an index that is printed into a path is read back as itself |
| JsonPath.AtoiReadsSigns | server/jsonprobe.go:424-428 | signs are read too, and what has no digits or exceeds 64 bits is not |
| JsonPath.IndexedPathsRead | server/jsonprobe.go:408-447 | for any key, the indexed path of a row reads that element of the field named exactly so, and nothing else |
| JsonPath.ProbeRowsRead | server/jsonprobe.go:473-500 | the probe reads that element of what the key alone leads to |
| JsonPath.TableAgreesWithIndexedPaths | server/jsonprobe.go:449-512 | a probe whose key has no space at its end agrees with the indexed path of a row whenever that resolves |
| JsonPath.SpacedKeyReadsAnotherTable | server/jsonprobe.go:408-416 | for every key with a space at its end there is a document on which they differ |
| JsonPath.AgreementIsExactlyForTrimmedKeys | server/jsonprobe.go:449-512 | probes on a key agree with their indexed paths on all documents if and only if the key has no space at its end |
| HostPrefs.Store.Resolve | server/hostprefs.go:95-140 | each threshold is the host's own positive value, else that of its narrowest policy that has one, else zero; mute, window and note are the host's own |
| HostPrefs.LayeringIsUnambiguous | server/hostprefs.go:99-113 | that layering determines the value, so map order cannot show |
| HostPrefs.OneAscendingListing | server/hostprefs.go:107-112 | one set of keys has one sorted listing |
| HostPrefs.LayersEndAtTheNarrowest | server/hostprefs.go:115-132 | applying the policies in order leaves the value of the last that sets one |
| HostPrefs.AppliesExactly | server/targets.go:24-62 | "all" covers every host, "os:" those of one system, "tag:" those with a tag, and any other key none |
| HostPrefs.HasTagExactly | server/targets.go:70-84 | a host has a tag exactly if a piece of its tag text between separators is that tag in any case |
| HostPrefs.NarrowestPolicyWins | server/hostprefs.go:95-140 | a threshold is decided by the host itself, else by the last of its tags in byte order that sets it, else so by its system, else by the policy for all |
| HostPrefs.Store.ResolveServices | server/hostprefs.go:149-176 | the first spellings of everything asked for by the policies in key order and then by the host |
| HostPrefs.WatchListIsUnambiguous | server/hostprefs.go:164-175 | that list is determined by the settings, so map order cannot show and it does not reshuffle |
| HostPrefs.WatchListIsTheUnion | server/hostprefs.go:142-176 | the list holds everything asked for by a covering policy or the host, in some spelling, and nothing else |
| HostPrefs.OwnWishesComeLast | server/hostprefs.go:171-175 | the host's own wishes only add at the end of what its policies ask for |
| HostPrefs.SpellingsCover | server/hostprefs.go:153-163 | every name asked for is kept in some spelling, and nothing else |
| HostPrefs.SpellingsDiffer | server/hostprefs.go:153-163 | no two names kept differ in case only |
| HostPrefs.WatchedRulesAreDistinct | server/alerts.go:267-285 | a resolved watch list gives every rule of a host its own name |
| HostPrefs.Store.RemediationFor | server/remediate.go:70-94 | the host's own script, else one of maximal rank among the policies that name one, else none |
| HostPrefs.NarrowestFixRuns | server/remediate.go:70-94 | the script is the host's own, else that of one of its tags, else of its system, else of the policy for all, else none |
| HostPrefs.FixDependsOnOrderExactlyOnTies | server/remediate.go:85-93 | the choice is independent of map order if and only if all policies of maximal rank name one script |
| HostPrefs.TwoTagsTie | server/remediate.go:85-93 | two tags of one host with different fixes are such a tie, so that the choice is up to map order |
| HostPrefs.OtherKeysDoNotMatter | server/hostprefs.go:101-106 | settings under a key that neither is nor covers a host change neither its thresholds nor its watch list nor the policies that could fix a rule there |
| HostPrefs.EmptyEntriesAreClutter | server/hostprefs.go:204-210 | an entry without settings decides no threshold, so deleting it is safe |
| HostPrefs.EmptyEntriesWatchNothing | server/hostprefs.go:204-210 | the watch list is the same without it |
| HostPrefs.EmptyEntriesFixNothing | server/hostprefs.go:204-210 | so are the scripts that could fix a rule |
| HostPrefs.Store.Set | server/hostprefs.go:204-218 | the entry is stored, or removed when it has no settings, so no empty entry stays |
| HostPrefs.IsZeroExactly | server/hostprefs.go:45-49 | an entry counts as empty exactly if every one of its settings is at its start |
| HostPrefs.Store.Forget | server/hostprefs.go:257-259 | one entry is removed |
| Dispatch.EveryJobIsConsistent | internal/capture/dispatch.go:38-67 | in every run a job's steps happen in order and say where the worker and its caller are |
| Dispatch.StepsHappenOnce | internal/capture/dispatch.go:39-43 | a job is handed over, started and finished at most once each |
| Dispatch.AnsweredOnce | internal/capture/dispatch.go:38-67 | a call is answered at most once, after it was made |
| Dispatch.PhasesMean | internal/capture/dispatch.go:38-67 | where a caller waits, by what happened to its job |
| Dispatch.TrueMeansRanOnce | internal/capture/dispatch.go:58-60 | the answer true means the job ran to its end exactly once, before the answer |
| Dispatch.RefusedNeverRuns | internal/capture/dispatch.go:49-57 | a caller that gives up at the hand-off has a job that never runs |
| Dispatch.SlowRunsAtMostOnce | internal/capture/dispatch.go:58-66 | a caller that gives up later has a job that was accepted and runs at most once |
| Dispatch.PatientCallersSucceed | internal/capture/dispatch.go:44-48 | with a timeout of zero every answer is true |
| Dispatch.GivingUpIsExact | internal/capture/dispatch.go:49-66 | the answer false is possible exactly for an impatient caller whose call is open |
| Dispatch.SuccessIsExact | internal/capture/dispatch.go:44-60 | the answer true is possible exactly for an open call whose job has ended |
| Dispatch.CallersGetThrough | internal/capture/dispatch.go:38-67 | in every run a new call can be answered true once the job at hand has ended |
| Dispatch.JobsNeverOverlap | internal/capture/inputdesktop_windows.go:117-120 | before another job starts the one before has finished |
| Dispatch.StuckJobHoldsTheWorker | internal/capture/dispatch.go:52-56 | while a job is stuck nothing else starts, and whoever is answered true had a job that ended before it |
| Dispatch.Dispatcher.Report | internal/capture/dispatch.go:71-79 | a stall is logged exactly when the last line is a second old |
| Dispatch.OneLineASecond | internal/capture/dispatch.go:69-79 | lines are a second apart and every stall is within a second of one |
| Syslog.Store.Add | server/syslog.go:70-78 | the ring stands for the history with this message added |
| Syslog.Store.Query | server/syslog.go:81-116 | the first entries, up to the limit, of the passing messages among the last the ring can hold, newest first |
| Syslog.MatchingSelects | server/syslog.go:99-113 | what matches are the passing messages, all of them, in the order walked |
| Syslog.CutAnswersKeepTheNewest | server/syslog.go:94-115 | an answer cut by its limit omits only messages older than every listed one |
| Syslog.AnswersExactly | server/syslog.go:81-116 | an answer lists only messages of the last seven days, of the source and with the text asked for in any case, at most as many as asked for or 200, and omits one only for newer ones |
| Syslog.Store.Sources | server/syslog.go:119-135 | each non-empty source in the window once, and no other |
| Syslog.Store.SameMessages | server/syslog.go:124-128 | the cells walked hold exactly the messages of the window |
| ExecOutput.Collector.Append | server/exec.go:87-104 | what is kept stays the first MiB of everything that arrived, split by stream, and the flag follows |
| ExecOutput.Collector.Finish | server/exec.go:106-115 | only the first outcome counts and closes the channel, once |
| ExecOutput.Collector.Result | server/exec.go:117-121 | the kept bytes of each stream, the first outcome and the flag |
| ExecOutput.TruncatedMeansBytesDropped | server/exec.go:90-97 | with non-empty messages the flag says exactly that bytes were dropped |
| ExecOutput.TruncatedExactly | server/exec.go:90-97 | for any messages, exactly when the flag is set |
| ExecOutput.FlagWithoutLoss | server/exec.go:90-97 | messages for which it is set though nothing was dropped |
| ExecOutput.KeptOneMore | server/exec.go:94-103 | a message adds what still fits of it, to its own stream |
| ExecOutput.StreamsComeOut | server/exec.go:87-104 | each stream comes out as written up to where it is cut, and together they hold everything or exactly a mebibyte |
| ExecOutput.TakingCollects | server/exec.go:87-104 | taking message by message keeps the collector at the first bytes of everything that arrived |
| ExecOutput.Registry.Create | server/exec.go:132-138 | a command gets a fresh collector of its own |
| ExecOutput.Registry.Output | server/agentconn.go:108-114 | output reaches the command it names and no other |
| ExecOutput.Registry.Done | server/agentconn.go:115-121 | so does the outcome |
| Sweep.NextIP | server/arp.go:280-290 | the carry loop makes the successor on a copy |
| Sweep.SuccCounts | server/arp.go:280-290 | that successor counts one up, and from the last address of any length to the first |
| Sweep.NextWraps | server/arp.go:280-290 | for four bytes that is counting modulo 2^32 |
| Sweep.MaskRoundsDown | server/arp.go:259-259 | masking gives the start of the block of the network's size that the address lies in |
| Sweep.NetIsABlock | server/arp.go:259-259 | an address is contained in a network exactly if its number lies in that block |
| Sweep.SweepNet | server/arp.go:258-274 | the walk ends and visits every address of the network once, in ascending order, at most 1024 |
| Sweep.SweepableNets | server/arp.go:210-236 | the networks of running, non-loopback interfaces with an IPv4 prefix of 22 or longer, and no other |
| Sweep.SmallExactly | server/arp.go:228-230 | those are the IPv4 networks with at most 1024 addresses |
| Sweep.SweepLocalNets | server/arp.go:244-277 | every such network is walked completely |
| CursorBlend.BlendFromBackgrounds | internal/capture/cursorblend.go:22-56 | every pixel is blended from the two renderings, and nil is returned exactly for bad sizes or when all is transparent |
| CursorBlend.BlendedBytes | internal/capture/cursorblend.go:27-51 | byte by byte: the black rendering with red and blue exchanged, and as much coverage as the channel that gains most on white leaves |
| CursorBlend.BlendUndoesRendering | internal/capture/cursorblend.go:12-17 | blending the renderings of a premultiplied pixel on black and on white gives it back |
| CursorBlend.ImageComesBack | internal/capture/cursorblend.go:22-56 | so for every image of any size, which is nil exactly when it is transparent throughout |
| CursorBlend.RenderingsAreTheAgreeingPairs | internal/capture/cursorblend.go:33-37 | two colours come from one pixel if and only if the three channels agree, and then from the blended one |
| CursorBlend.InvertingIsOpaque | internal/capture/cursorblend.go:38-43 | a pixel comes out opaque exactly if white lightens none of its channels |

## Left out

- HostPrefs.Store.RemediationFor: among fixes of equal rank it claims no more than that one of them is returned, because the source leaves the choice to map order.
- Topology.RootOf: among nodes with equally many lines it does not say which, because the source decides by the order of names.
- HTTP handlers, sockets, SNMP, mDNS, NetBIOS and TLS traffic, process launching, SQLite and files: only the events they deliver are modelled, as arguments.
- Windows and X11 calls: the frame, its status and its rectangles are inputs of a grab; screenshots and the cursor drawing calls are not part of this model.
- Floating-point rounding and NaN: floats are reals, which also leaves out a threshold that is not a number.
- Overflow of 64-bit counters and clocks: integers and times are unbounded, except where an index is parsed.
- Context cancellation in the sweep and the poll loops, and panics.
- Lower-casing and case-insensitive comparison are parameters; how a JSON value prints is a parameter.
- Raw JSON decoding of the controller's answer: the builder starts from records with mac, gateway, uplink, neighbours and port sightings.
- The keys the source joins as strings in the topology (port, cable) are pairs and sets; for well-formed addresses these tell the same things apart.
- The order in which the map's nodes are listed: the source sorts them by name, the model lists them in any order, which also leaves ties for the root open.
- `attachWireless`, `linkToChecks` and the vendor table (a parameter) of the topology.
- `Active`, message texts and notification delivery of the alerter; `notifyNetCheck` does not go through the state machine.
- The history, encoder and display parts of the registry's hosts, and `reaper`.
- Reading the display values of a probe (`readingFrom`, number formatting) and probe sessions.
- How mask and containment are computed inside the net package, and address parsing: masks are prefix lengths.
- Parsing of syslog lines and the age pruner; the window a query considers is the ring.
- Log lines, audit records and persistence of settings.
- Wall-clock fairness: a caller of the dispatcher with no timeout may wait for ever.
