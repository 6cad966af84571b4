# rdpilot verification

A Dafny model of the parts of rdpilot where an interleaving, a fragmentation or a rare input could
break a promise, and proofs of those promises. `dafny verify dfyconfig.toml` checks everything.

**Control of one session** (`ControlState`, `SessionControl`, `ControlWorld` and the `Control*`
modules, `SessionLoop`, `InputRequest`, `Wakeup`). `ControlState` has each critical section of the
control mutex as a function; the class `SessionControl` does the same in place and is proved equal to
it. `ControlWorld` is the step machine: the control state, takes at each of their awaits, undischarged
transitions, the input lock, the queue to the session loop, and the loop with the owner of everything
that is down. Its actions interleave freely, sends and discharges may fail or time out at any point, and
a run is any sequence of enabled actions. `ControlTheorems` holds the results over all runs,
`ControlHistory` says what every field of the control state is in terms of the run alone,
`ControlProgress` what only moves on, `ControlLiveness` that every take can still be granted,
`ControlExpiry` what can come between the two sections of an expiry, and `ControlExamples` has the runs
that show where the promises end.

**The guest carrier** (`Protocol`, `Framing`, `ChannelPdu`, `Carrier`, `LineReader`, `ChildRequests`,
`BridgeRuntime`, `BridgeHistory`). Two stacked stateful decoders, the line reader of the child, the request table, and
the control loop of the bridge with everything it says to the daemon and hands to its child.

**The event log** (`EventLog`, `CallTracker`, `CallRuns`). The ring with its sink and readers, and the
pairing of calls with answers over any number of attachments and native verbs.

**The pixel clock** (`Folds`, `Digits`, `CrcBits`, `Crc`, `BarCode`,
`Percentile`). The row of 72 cells, its checksum, the reconstruction of a full time, and the
nearest-rank percentile of what was measured.

**Bundle installation** (`Bundle`, `Install`). Staging, extraction and publication over a file system
that folds names as it likes and fails where it likes.

`Wrappers`, `Sets` and `Vocabulary` hold what several parts share.

## Where the code and its promises differ

The model follows the code. Each case has a lemma.

- Epochs saturate (`crates/rdpilot/src/input.rs:30-38`). After the largest epoch a controller change
  keeps the epoch (`SaturationSharesAnEpoch`); a change is fresh exactly as `ChangeIsFreshExactly`
  says. The theorems speak about runs before a change was made at the maximum and before the session's end.
- The end of the session keeps the epoch (`crates/rdpilot-daemon/src/control.rs:718-722`), see
  `SessionEndKeepsTheEpoch`.
- An acting call without an id is not counted, so a take does not wait for it: a run in which it meets a
  human's key is `UncountedCallMeetsAHuman`. With nothing pending and the newest epoch change kept, it
  meets one exactly when a human holds the lease and something is down (`ReleasedExactly`).
- A discharge that is given up still lets the agent in: a run in which that leaves a human's key down is
  `UnconfirmedChangeLeavesAKeyDown`. At any point of any run a human's key is down exactly when something
  is down and a human captured the epoch the loop is at (`HumanKeyIsDownExactly`). A change that was given
  up matters only while it is the newest one (`ReleasedExactly`).
- An expiry checks in one section and ends the lease in another, so it can end a take that only waits
  (`ExpiryCanEndANewTake`), against its comment (`crates/rdpilot-daemon/src/control.rs:968-969`). The two
  sections are two actions of the step machine. Whatever comes between them, the second ends a take in
  progress exactly when the lease it meets is not granted, and another lease than the found one exactly
  when a take was marked in between (`ExpiryEndsWhatItMeets`).
- An agent action that waits for releases is not woken by a lease that appears meanwhile, although the
  lease would answer it (`LeaseDoesNotWake`); it is answered at the next signal. `SleepsThroughExactly`
  says when this happens.
- A manifest may name the archive like the bridge. Validation accepts it
  (`crates/rdpilot-bridge-protocol/src/lib.rs:127-146`), installation succeeds, and the bridge is gone
  (`BridgeCanVanish`); `StagedIsInstalled` has the condition. The branch that keeps an archive listed
  among its own files (`crates/rdpilot-bridge/src/install.rs:165`) is never taken
  (`ListedArchiveIsRefused`).

## How things are modelled

- Times are numbers on a logical clock, and every timeout is a choice of the run.
- Lease ids are numbers that a run never draws twice; in the code they are random.
- The session loop is `crates/rdpilot/src/session_loop.rs`: an older batch is refused, a newer one
  changes the epoch first.
- JSON text and SHA-256 are given functions. Of JSON only that parsing inverts formatting is used.
  A message is what the code reads of it.
- `full_micros` is whole-number arithmetic: it is called with what `Date.now()` gave in the page
  (`scripts/e2e/run-perf-proof.py:253`, 314).
- The product in `math.ceil(q * len(ordered))` is a floating-point number. Its rounding is a parameter: any
  function that keeps the order and the whole numbers up to 2^53. `IsNearestRank` says what follows where
  it rounds down to a whole number, as it does for a tenth of ten values.
- The strip of the viewer page (`crates/rdpilot-daemon/src/viewer/page.html:695-720`) is modelled next to
  the log because its trimming and the ring's have to agree.

## Model

| member | source | states |
|---|---|---|
| ControlTheorems.OneOwnerPerEpoch | crates/rdpilot-daemon/src/control.rs:459-468 | In every run each captured epoch belongs to the agent or to one lease for good; the loop applies epochs in order, one owner each, and never another owner's batch between two batches of one lease |
| ControlTheorems.CleanGrant | crates/rdpilot-daemon/src/control.rs:781-896 | However takes, takeovers, blurs and failed discharges interleave: at a grant the loop has the lease's epoch, nothing is down, pending, on its way or in flight, and nobody captured the epoch yet |
| ControlTheorems.HumanAndCuaNeverOverlap | crates/rdpilot-daemon/src/control.rs:610-639 | No acting call is counted in flight at any instant of a granted lease |
| ControlHistory.CallsAreCounted | crates/rdpilot-daemon/src/control.rs:610-641 | Over every run the count is never less than the calls counted in minus the answers, and exactly that when every answer belongs to a call |
| ControlHistory.EveryCallIsAnsweredBeforeAGrant | crates/rdpilot-daemon/src/control.rs:816-896 | While a lease is granted as many answers as counted calls have come in |
| ControlTheorems.NothingIsLeftBehind | crates/rdpilot-daemon/src/control.rs:1084-1101 | The pending count is the number of live transitions, and a pending lease is always that of a take in progress |
| ControlProgress.EveryTakeCanGoOn | crates/rdpilot-daemon/src/control.rs:781-896 | At every point of every run each take has a step of its own that is possible, whatever the others do, and that brings it nearer to its end |
| ControlProgress.TakesOnlyAdvance | crates/rdpilot-daemon/src/control.rs:781-896 | No step of anyone moves a take back, so six of its own steps at most decide or undo it |
| ControlLiveness.EveryTakeCanBeGranted | crates/rdpilot-daemon/src/control.rs:781-896 | From every point of every run a take that still has its lease, was not too late and was not abandoned can be granted: there is a continuation that ends with its grant |
| ControlLiveness.EverythingCanBeDelivered | crates/rdpilot-daemon/src/control.rs:727-751 | From every point of every run the queue can be answered, every release and epoch change sent and applied and every call answered, giving nothing up and leaving the lease alone |
| ControlProgress.TakesAreAbandonedExactly | crates/rdpilot-daemon/src/control.rs:1084-1101 | A take may be abandoned at each of its five awaits and only there; its lease and its transition are then gone and the epoch stays |
| ControlProgress.OldEpochIsRefused | crates/rdpilot/src/session_loop.rs:118-133 | Once the loop adopted an epoch, however the run goes on: no batch of an earlier one is applied, and what is down was pressed by an owner of this epoch or a later one |
| ControlTheorems.HumanKeyIsDownExactly | crates/rdpilot-daemon/src/control.rs:727-751 | Whatever was given up or is on its way: a human's key is down if and only if something is down and a human captured the loop's epoch |
| ControlTheorems.ReleasedExactly | crates/rdpilot-daemon/src/control.rs:550-589 | With nothing pending and the newest epoch change not given up: a human's key is down if and only if a human holds the lease and something is down, so a call without an id too meets no other key |
| ControlTheorems.ReleasedBeforeTheAgentActs | crates/rdpilot-daemon/src/control.rs:550-589 | If the newest epoch change was not given up, nothing a human pressed is down when a native action is admitted or the wait before a counted call ends |
| ControlTheorems.AgentInputClearsTheRest | crates/rdpilot/src/session_loop.rs:109-133 | Once the loop applied a batch of the agent, only the agent holds anything down, confirmed or not |
| ControlTheorems.NoOrphanedPress | crates/rdpilot-daemon/src/control.rs:998-1080 | While a lease stays granted, whatever is down in the loop is in the lease's held set, owed by an unsent blur, being released on the way, or its release was given up |
| ControlTheorems.QuietLeaseHoldsEverything | crates/rdpilot-daemon/src/control.rs:938-944 | With every send accepted and nothing on the way, the loop has down at most what the lease holds |
| ControlHistory.HeldIsWhatIsPressed | crates/rdpilot-daemon/src/control.rs:1022-1066 | Over every run: a granted lease holds a key or button if and only if the newest its holder did about it since the grant, the last blur and, for a button, the last fence was to press it |
| ControlTheorems.ChangeIsFreshExactly | crates/rdpilot-daemon/src/control.rs:459-468 | A controller change gives an epoch nobody captured if and only if the counter can still grow or the epoch is unused |
| ControlTheorems.SessionEndKeepsTheEpoch | crates/rdpilot-daemon/src/control.rs:718-722 | The session's end is the one lease end that keeps the epoch; the epoch is the agent's afterwards if and only if the holder had not used it |
| ControlRuns.StepKeeps | crates/rdpilot-daemon/src/control.rs:294-305 | Every step of the protocol, whatever it is, keeps the whole invariant of lease, epoch, takes, transitions, queue and loop |
| ControlRuns.RunKeeps | crates/rdpilot-daemon/src/control.rs:294-305 | The invariant holds after every run |
| ControlOrphans.RunAccounts | crates/rdpilot-daemon/src/control.rs:319-346 | After every run everything down under a granted lease is accounted for, and a lease captures only the epoch it was granted with |
| ControlOrphans.LoopStepIsTheLoop | crates/rdpilot/src/session_loop.rs:92-133 | The loop inside the step machine is the session loop: same epoch, same keys, same refusals |
| ControlPreserved.MarkKeeps | crates/rdpilot-daemon/src/control.rs:781-815 | Marking a take registers the holder's transition and keeps the invariant |
| ControlPreserved.SettleKeeps | crates/rdpilot-daemon/src/control.rs:816-861 | Settling a take advances the epoch, with no call in flight, and keeps the invariant |
| ControlPreserved.FinishKeeps | crates/rdpilot-daemon/src/control.rs:862-896 | Granting or giving up a take keeps the invariant |
| ControlPreserved.UndoKeeps | crates/rdpilot-daemon/src/control.rs:1084-1101 | Dropping a take at any await undoes its pending lease and keeps the invariant |
| ControlPreserved.AgentRegains | crates/rdpilot-daemon/src/control.rs:663-690 | The end of any lease in favour of the agent leaves an epoch no human can use |
| ControlPreserved.CheckKeeps | crates/rdpilot-daemon/src/control.rs:1022-1078 | A lease check, whatever it answers, keeps the invariant |
| ControlPreserved.CheckShape | crates/rdpilot-daemon/src/control.rs:1022-1078 | An answered check leaves the lease with its holder and epoch, count and pending as they were, and takes the event or the releases of a fence in hand under the request's epoch |
| NetPreserved.LoopStepKeeps | crates/rdpilot/src/session_loop.rs:229-257 | A command taken by the loop keeps epochs ordered and presses owned |
| ControlExamples.EveryEpochIsReached | crates/rdpilot-daemon/src/control.rs:459-468 | Every epoch up to the maximum is reached by some run |
| ControlExamples.SaturationSharesAnEpoch | crates/rdpilot/src/input.rs:30-38 | The saturating counter is a real limit: at its maximum a human captures an epoch the agent captured before |
| ControlExamples.UncountedCallMeetsAHuman | crates/rdpilot-daemon/src/control.rs:610-628 | An acting call without an id does not hold off a take: a human can hold a key down when its wait is over |
| ControlExamples.UnconfirmedChangeLeavesAKeyDown | crates/rdpilot-daemon/src/control.rs:727-751 | When a discharge is given up the agent is admitted with a human's key still down |
| ControlState.MemoryIsNewestEnds | crates/rdpilot-daemon/src/control.rs:319-326 | The memory of ended leases is exactly the newest 16 of the whole history |
| ControlState.LossIsNewest | crates/rdpilot-daemon/src/control.rs:327-334 | A lease is answered with its newest remembered loss, and as unknown exactly when none is remembered |
| ControlHistory.LosersAreToldWhy | crates/rdpilot-daemon/src/control.rs:319-334 | Over every run: heartbeat, blur, release and input of a lease that is not held all answer its newest end of the run, who displaced it or why it ended, unless it is not among the newest 16 |
| ControlHistory.LostTakesAreToldWhy | crates/rdpilot-daemon/src/control.rs:1103-1108 | Over every run: a take that finds its lease gone was displaced or ended and answers with that, or with the agent when it is forgotten |
| ControlHistory.LeaseIsAsMarked | crates/rdpilot-daemon/src/control.rs:787-815 | Over every run a lease carries the id and address of the take that marked it |
| ControlState.FenceLeavesNoButton | crates/rdpilot-daemon/src/control.rs:1044-1066 | After a fenced pointer event the lease holds no button and keeps every key |
| ControlState.HeldReleaseIsNeverFenced | crates/rdpilot-daemon/src/control.rs:1159-1186 | The release of a held button reaches the session whatever the frame is now |
| ControlState.EventsAreFencedExactly | crates/rdpilot-daemon/src/control.rs:1036-1042 | Which events are fenced, by kind: with another frame or none every wheel turn, move and button except the release of a held one; with the right frame a move beyond its edge; never a key |
| ControlState.ExpiryCanEndANewTake | crates/rdpilot-daemon/src/control.rs:968-983 | Between the two sections of an expiry a take can mark itself, and the expiry then ends that pending take |
| ControlExpiry.ExpiryEndsWhatItMeets | crates/rdpilot-daemon/src/control.rs:968-983 | Whatever comes between the two sections of an expiry: it ends the lease it meets, which is another than the one it found if and only if a take was marked in between; it ends a take in progress if and only if the lease it meets is not granted |
| ControlHistory.ExpiryIsExact | crates/rdpilot-daemon/src/control.rs:968-983 | Over every run: a lease is found without a heartbeat if and only if the grant and every beat, blur and passed event since are more than five seconds ago, and idle if and only if, heartbeat aside, the grant and every passed event are at least the idle timeout ago |
| ControlHistory.ClocksAreTheNewestSigns | crates/rdpilot-daemon/src/control.rs:925-944 | Over every run the heartbeat clock is the newest of grant, beats, blurs and passed events, and the input clock the newest of grant and passed events |
| Wakeup.NoLostWakeup | crates/rdpilot-daemon/src/control.rs:1169-1180 | A waiter sleeps, or is about to after its poll, only while its condition is false or a signal is owed, except an agent action after a lease appeared |
| Wakeup.ZeroIsNeverMissed | crates/rdpilot-daemon/src/control.rs:907-909 | The waits for a zero count have no exception |
| Wakeup.EveryDropIsSignalled | crates/rdpilot-daemon/src/control.rs:630-641 | Over every run each decrement owes exactly one signal |
| Wakeup.SignalAnswers | crates/rdpilot-daemon/src/control.rs:362-367 | An owed signal wakes every sleeper, and one that polls an unchanged zero count is answered |
| Wakeup.LeaseDoesNotWake | crates/rdpilot-daemon/src/control.rs:550-559 | The exception happens: an agent action can sleep although a lease would answer it |
| Wakeup.SleepsThroughExactly | crates/rdpilot-daemon/src/control.rs:550-559 | The one exception, exactly: a sleeper whose condition is true is owed no signal if and only if it is an agent action under a lease with no signal owed |
| SessionLoop.LoopInput.constructor | crates/rdpilot/src/session_loop.rs:100-107 | The loop starts at epoch 0 with nothing down |
| SessionLoop.LoopInput.ChangeEpoch | crates/rdpilot/src/session_loop.rs:109-117 | A newer epoch is adopted and the answer is exactly what was down, which is down no more; an older or equal one changes and answers nothing |
| SessionLoop.LoopInput.Apply | crates/rdpilot/src/session_loop.rs:118-133 | Refused as stale if and only if older; otherwise what is down is what was down, less the answered releases, and then the events |
| SessionLoop.LoopIsItsNewestEpoch | crates/rdpilot/src/session_loop.rs:92-133 | Over any epoch changes and batches in any order: the loop is at the newest epoch anyone named, and what it tracks is what its session has down from the answered releases and events, namely what the batches of that epoch alone leave down |
| SessionLoop.AnswersAreExact | crates/rdpilot/src/session_loop.rs:109-133 | After any commands: a newer epoch releases exactly what the session has down, an older batch is refused with the newest epoch, everything else releases nothing |
| SessionControl.SessionControl.LossOf | crates/rdpilot-daemon/src/control.rs:327-334 | Answers why a lease is not held any more |
| SessionControl.SessionControl.PollAgent | crates/rdpilot-daemon/src/control.rs:550-559 | Refused with the address of the lease, admitted at the epoch when nothing is pending, otherwise waiting |
| SessionControl.SessionControl.AdmitCua | crates/rdpilot-daemon/src/control.rs:610-628 | Refused, without a change, if and only if there is a lease and no takeover; otherwise the lease is gone and the calls counted, with a transition if and only if there was a lease |
| SessionControl.SessionControl.AgentTakeover | crates/rdpilot-daemon/src/control.rs:650-679 | No lease is left, the end is remembered as displaced by the agent, and only a granted lease advances the epoch |
| SessionControl.SessionControl.EndHuman | crates/rdpilot-daemon/src/control.rs:709-716 | No lease is left, the reason is remembered, and only a granted lease advances the epoch |
| SessionControl.SessionControl.EndHumanEnded | crates/rdpilot-daemon/src/control.rs:718-722 | No lease is left and the epoch is kept |
| SessionControl.SessionControl.Expire | crates/rdpilot-daemon/src/control.rs:970-983 | With nothing between its sections: ends a granted lease if and only if its heartbeat is more than five seconds old or its input at least the idle timeout, for that reason and at a new epoch |
| SessionControl.SessionControl.Blur | crates/rdpilot-daemon/src/control.rs:938-944 | Answered if and only if the lease is held; it stays held with nothing in its set, and the transition releases what was in it at the same epoch |
| SessionControl.SessionControl.Release | crates/rdpilot-daemon/src/control.rs:946-966 | Answered if and only if the lease is held; it ends with a confirmed change to a new epoch, or the reason it is not held is told |
| SessionControl.SessionControl.ServeEvent | crates/rdpilot-daemon/src/control.rs:1022-1078 | One event from its lease check to the answer of the session: what it sends, what it reports, whether the request ends, and what the lease holds afterwards |
| SessionControl.SessionControl.ServeAll | crates/rdpilot-daemon/src/control.rs:1010-1080 | The loop over the events sends, reports and leaves what the specification says event by event |
| SessionControl.SessionControl.Input | crates/rdpilot-daemon/src/control.rs:998-1080 | A whole request: generation check, coalescing, lease checks and sends; its report counts the sent, fenced and stale events up to and from where it stops |
| SessionControl.SessionControl.MarkTake | crates/rdpilot-daemon/src/control.rs:781-815 | A pending lease replaces whatever was there, whose holder is remembered as displaced by this address; a transition with a new epoch if and only if a granted one was displaced |
| SessionControl.SessionControl.SettleTake | crates/rdpilot-daemon/src/control.rs:830-861 | Advances if and only if the lease is still this one and everything settled; otherwise lost or busy |
| SessionControl.SessionControl.FinishTake | crates/rdpilot-daemon/src/control.rs:862-896 | Granted, with both clocks started, if and only if the lease is still this one and its change was confirmed; lost or busy otherwise, at the epoch already advanced |
| SessionControl.SessionControl.UndoTake | crates/rdpilot-daemon/src/control.rs:1090-1100 | Takes back a pending lease of this id and nothing else |
| InputRequest.Coalesce | crates/rdpilot-daemon/src/control.rs:1214-1225 | The loop that keeps the last of adjacent moves computes the specification |
| InputRequest.CoalescingIsInvisible | crates/rdpilot-daemon/src/control.rs:1214-1225 | The session sees the same keys and pointer at every other event and at the end with and without coalescing |
| InputRequest.OnlyMovesAreDropped | crates/rdpilot-daemon/src/control.rs:1214-1225 | No two moves are adjacent afterwards and every other event is kept in order |
| InputRequest.EveryEventIsCounted | crates/rdpilot-daemon/src/control.rs:1010-1080 | Every report counts each event once: applied, stale or fenced |
| InputRequest.ReportIsExact | crates/rdpilot-daemon/src/control.rs:1010-1080 | The report in terms of the events and what each finds: up to the first that finds the lease lost or is not accepted, the sent are applied and the fenced are fenced; the rest is stale with the reason; no report if and only if the session does not take that event |
| InputRequest.OneEpochPerRequest | crates/rdpilot-daemon/src/control.rs:1022-1078 | Every batch of a request carries the epoch of its first lease check |
| InputRequest.EventsAreSentInOrder | crates/rdpilot-daemon/src/control.rs:1022-1078 | Exactly the events that pass their lease check are sent, in the order of the request, up to the one it ends with |
| InputRequest.PassedIsInOrder | crates/rdpilot-daemon/src/control.rs:1022-1078 | So each event is sent at most once and none is invented |
| InputRequest.LeaseHoldsWhatWasSent | crates/rdpilot-daemon/src/control.rs:1022-1078 | Undisturbed by others, the lease ends up holding exactly what the sent batches leave down |
| Protocol.LeRoundTrip | crates/rdpilot-bridge-protocol/src/lib.rs:194-204 | A length survives its four little-endian bytes |
| Framing.Decoder.constructor | crates/rdpilot-bridge-protocol/src/lib.rs:214-219 | A decoder starts with an empty buffer and waits for a length |
| Framing.Decoder.Push | crates/rdpilot-bridge-protocol/src/lib.rs:220-252 | The in-place decoder does what feeding the bytes one by one does, errors included, and never buffers more than its target |
| Framing.Decoder.Reach | crates/rdpilot-bridge-protocol/src/lib.rs:228-249 | At its target the buffer becomes a length, a frame or a refusal as the specification says |
| Framing.Decoder.Finish | crates/rdpilot-bridge-protocol/src/lib.rs:253-259 | Succeeds exactly between frames |
| Framing.FeedAppend | crates/rdpilot-bridge-protocol/src/lib.rs:220-252 | Two calls without an error do what one call does |
| Framing.FragmentationIsInvisible | crates/rdpilot-bridge-protocol/src/lib.rs:220-252 | However a stream is cut, the calls fail exactly when one call fails, with the same error; without one they give the same frames and state |
| Framing.StreamRoundTrip | crates/rdpilot-bridge-protocol/src/lib.rs:194-252 | Encoded envelopes decode to themselves in one call |
| Framing.EncodesExactly | crates/rdpilot-bridge-protocol/src/lib.rs:194-204 | An envelope is encoded if and only if its payload has at most 16 MiB, as its length and itself |
| Framing.FramesSurviveFragmentation | crates/rdpilot-bridge-protocol/src/lib.rs:194-259 | Any cut of the encodings of any envelopes gives exactly the envelopes and ends at a boundary |
| Framing.FinishOnlyAtBoundaries | crates/rdpilot-bridge-protocol/src/lib.rs:253-259 | After any part of a stream the end is accepted exactly at a frame boundary |
| Framing.FramesAreRefusedExactly | crates/rdpilot-bridge-protocol/src/lib.rs:220-252 | After any good frames the next is refused if and only if its length is 0 or above 16 MiB, its payload does not parse, or its version is not 2, each with its own error |
| ChannelPdu.PduDecoder.constructor | crates/rdpilot-bridge/src/wts_framing.rs:1-11 | A PDU decoder starts idle |
| ChannelPdu.PduDecoder.Push | crates/rdpilot-bridge/src/wts_framing.rs:12-48 | One chunk: its data, or the refusal of a bad header, length, order or overrun, and what remains |
| ChannelPdu.DeliversTheDeclaredLength | crates/rdpilot-bridge/src/wts_framing.rs:12-48 | In every accepted run the data from FIRST to LAST is exactly the declared length and what remains is declared minus delivered |
| ChannelPdu.AcceptsExactly | crates/rdpilot-bridge/src/wts_framing.rs:12-48 | After any accepted chunks the next is accepted if and only if it has a header, known flags and a legal length, FIRST exactly when no PDU is unfinished, the declared length, no excess data, and LAST exactly when the data is complete |
| ChannelPdu.ChunksAreAccepted | crates/rdpilot-bridge/src/wts_framing.rs:12-48 | Any cut of a PDU into chunks with proper headers is accepted and delivers the cut pieces |
| Carrier.ReadCarrier | crates/rdpilot-bridge/src/windows.rs:203-247 | The read loop pipes every chunk through both decoders and stops at the first refusal |
| Carrier.EnvelopesCrossTheChannel | crates/rdpilot-bridge/src/windows.rs:203-247 | Framed envelopes cut anywhere into PDUs, and the PDUs anywhere into chunks, come out exactly and leave both decoders idle |
| LineReader.Pipe.constructor | crates/rdpilot-bridge/src/runtime.rs:274-277 | A pipe delivers its bytes in nonempty chunks |
| LineReader.Pipe.Consume | crates/rdpilot-bridge/src/runtime.rs:291-292 | Consuming takes bytes from the front and no more |
| LineReader.Pipe.ReadLine | crates/rdpilot-bridge/src/runtime.rs:274-298 | The next line, end, truncation or 16 MiB rejection depends on the bytes and not on the chunks, and exactly the line is consumed |
| LineReader.Pipe.ReadLines | crates/rdpilot-bridge/src/runtime.rs:325-343 | All lines until the reader stops depend on the bytes only |
| LineReader.LinesAreTheStream | crates/rdpilot-bridge/src/runtime.rs:274-298 | The lines in order and what follows them are the stream; each line ends with its only newline within the limit, and the rest explains the stop |
| ChildRequests.ChildLoop.constructor | crates/rdpilot-bridge/src/runtime.rs:374-378 | No request is open at the start |
| ChildRequests.ChildLoop.Observe | crates/rdpilot-bridge/src/runtime.rs:408-425 | One message updates the pending map as the specification says |
| ChildRequests.PendingIsOutstanding | crates/rdpilot-bridge/src/runtime.rs:408-425 | The pending map is exactly the requests of each side not answered by the other, 256 at most |
| ChildRequests.AbortsExactly | crates/rdpilot-bridge/src/runtime.rs:408-425 | A message ends the attachment exactly when it repeats an open request or finds 256 open ones |
| ChildRequests.DeadlineIsExact | crates/rdpilot-bridge/src/runtime.rs:383-385 | The deadline passes if and only if a request that is not answered was asked longer ago than the timeout |
| BridgeRuntime.ControlLoop.constructor | crates/rdpilot-bridge/src/runtime.rs:95-111 | The control loop starts without an attachment and not ready |
| BridgeRuntime.ControlLoop.Say | crates/rdpilot-bridge/src/runtime.rs:67-78 | An envelope is sent or, when the queue is full, the loop stops |
| BridgeRuntime.ControlLoop.Open | crates/rdpilot-bridge/src/runtime.rs:131-154 | An attachment starts only when none is active and its number grows; the generation advances even when the child does not start |
| BridgeRuntime.ControlLoop.Forward | crates/rdpilot-bridge/src/runtime.rs:155-163 | A message that names the active attachment and generation reaches the child, or closes it when its queue is full; any other is ignored |
| BridgeRuntime.ControlLoop.Close | crates/rdpilot-bridge/src/runtime.rs:164-169 | Only the active attachment is closed |
| BridgeRuntime.ControlLoop.Receive | crates/rdpilot-bridge/src/runtime.rs:116-182 | One envelope of the daemon |
| BridgeRuntime.ControlLoop.Beat | crates/rdpilot-bridge/src/runtime.rs:194-202 | Silence and overdue transfers stop the loop; a finished transfer is answered |
| BridgeRuntime.ControlLoop.Run | crates/rdpilot-bridge/src/runtime.rs:112-212 | The loop is the run of its turns until it stops |
| BridgeRuntime.EveryRunSpeaksTheGrammar | crates/rdpilot-bridge/src/runtime.rs:112-193 | Every run says only errors before Ready, then Opened and Closed in turn, with messages of the open child between |
| BridgeHistory.EveryTurnReactsExactly | crates/rdpilot-bridge/src/runtime.rs:112-202 | Over every run each turn says, under the right control id, and delivers exactly what its event and what was said and asked before call for |
| BridgeHistory.DeliveredIsWhatNamedTheChild | crates/rdpilot-bridge/src/runtime.rs:155-158 | Over every run the child is handed, in order, exactly the messages its queue took that named the attachment opened last and not closed |
| BridgeHistory.LoopMatchesItsStory | crates/rdpilot-bridge/src/runtime.rs:95-111 | Every variable of the loop is determined by what it was sent and what it said |
| BridgeRuntime.MessagesReachTheirOwnChild | crates/rdpilot-bridge/src/runtime.rs:155-163 | No message naming another attachment or generation reaches a child |
| BridgeRuntime.OpenedNumbersGrow | crates/rdpilot-bridge/src/runtime.rs:131-154 | Attachment ids and runtime generations strictly grow over everything said |
| BridgeRuntime.MessagesLieInside | crates/rdpilot-bridge/src/runtime.rs:183-186 | Every message of a child lies after its own Opened with no Opened or Closed between |
| BridgeRuntime.ClosedEndsItsOwn | crates/rdpilot-bridge/src/runtime.rs:164-193 | Every Closed ends the attachment opened last |
| BridgeRuntime.OneAttachmentAtATime | crates/rdpilot-bridge/src/runtime.rs:131-136 | Between two Opened there is a Closed |
| BridgeRuntime.OnlyErrorsBeforeReady | crates/rdpilot-bridge/src/runtime.rs:123-130 | Before the first Ready nothing but errors is said |
| EventLog.SessionEvents.constructor | crates/rdpilot-daemon/src/events.rs:341-368 | A log starts empty with call number 1 |
| EventLog.SessionEvents.Record | crates/rdpilot-daemon/src/events.rs:407-423 | The ring stays the newest 200 of the whole log, the number is the next one, and the sink gets the event |
| EventLog.SessionEvents.AttachSink | crates/rdpilot-daemon/src/events.rs:432-447 | A sink gets its first event and attaches, or is refused without an effect |
| EventLog.SessionEvents.DetachSink | crates/rdpilot-daemon/src/events.rs:451-458 | The sink gets its final event and is gone |
| EventLog.SessionEvents.RecordDetached | crates/rdpilot-daemon/src/events.rs:463-471 | A recording-only event goes to the sink and nowhere else |
| EventLog.SessionEvents.CallStarted | crates/rdpilot-daemon/src/events.rs:482-493 | A call gets the next number and its start is recorded |
| EventLog.SessionEvents.After | crates/rdpilot-daemon/src/events.rs:516-532 | The filtering loop over the ring gives the page of the whole log |
| EventLog.PageIsExact | crates/rdpilot-daemon/src/events.rs:514-532 | A page is exactly the retained events above the asked number, in order |
| EventLog.LogIsTheRecords | crates/rdpilot-daemon/src/events.rs:407-423 | The log is exactly what was recorded, in order, numbered from 1 |
| EventLog.GapIsALoss | crates/rdpilot-daemon/src/events.rs:303-315 | oldest exceeds the next number if and only if an event above the asked number is gone |
| EventLog.PanelShowsTheNewest | crates/rdpilot-daemon/src/viewer/page.html:695-720 | Of the log it follows, the page's strip is at every point exactly the newest 200 events up to its number, whatever it missed; nothing of an earlier log stays once it follows the next |
| EventLog.TwoRefreshesShowAll | crates/rdpilot-daemon/src/viewer/page.html:695-720 | After any run with any restarts two refreshes show the newest 200 events of the present log |
| EventLog.GapFreeReaderHasTheLog | crates/rdpilot-daemon/src/events.rs:303-315 | A collecting reader has the whole log up to its number if and only if it never saw the gap sign |
| EventLog.RecordingIsInvisible | crates/rdpilot-daemon/src/events.rs:425-471 | Leaving out every attach, detach and recording-only event gives the same log, strip and pages |
| EventLog.RecordingIsComplete | crates/rdpilot-daemon/src/events.rs:425-458 | Every recording is handed its own first and last event around an unbroken stretch of the log |
| CallTracker.CuaCallTracker.constructor | crates/rdpilot-daemon/src/events.rs:664-671 | A tracker starts with no open call |
| CallTracker.CuaCallTracker.Finish | crates/rdpilot-daemon/src/events.rs:756-764 | The end of a call is recorded under its number and name |
| CallTracker.CuaCallTracker.ObserveRequest | crates/rdpilot-daemon/src/events.rs:673-712 | A tool call with an id replaces the call of the same id, evicts the oldest of 64, and opens under the next number |
| CallTracker.CuaCallTracker.ObserveResponse | crates/rdpilot-daemon/src/events.rs:714-746 | An answer to an open id ends its call as ok or error; everything else is ignored |
| CallTracker.CuaCallTracker.Close | crates/rdpilot-daemon/src/events.rs:748-754 | Closing ends every open call without an answer, oldest first |
| CallTracker.NamesAreRecordedExactly | crates/rdpilot-daemon/src/events.rs:766-775 | A name is recorded if and only if it has 1 to 64 characters, all letters, digits, underscore, hyphen or dot; otherwise the placeholder is |
| CallTracker.CliCall.constructor | crates/rdpilot-daemon/src/events.rs:601-614 | A native verb starts with a recorded number |
| CallTracker.CliCall.End | crates/rdpilot-daemon/src/events.rs:624-635 | Only the first end is recorded |
| CallTracker.CliCall.Finish | crates/rdpilot-daemon/src/events.rs:616-642 | Finishing a verb and dropping it records one end |
| CallRuns.EveryCallEndsOnce | crates/rdpilot-daemon/src/events.rs:593-764 | Over any attachments and verbs sharing a log, with other steps between drawing a number and recording its start: each number is started once, unless it still waits for that, and ended once or still open, ends follow starts under the same name, and once nothing is open all are ended |
| CallRuns.PendingStaysTidy | crates/rdpilot-daemon/src/events.rs:644-646 | No attachment has two open calls with one id or more than 64 |
| CallRuns.OnlyTheFirstAnswerCounts | crates/rdpilot-daemon/src/events.rs:714-746 | As a map from ids: an answer removes exactly its id and ends that call, as an error if and only if it has an error member or a flagged result, and a second answer changes nothing |
| CallRuns.AnswersEndExactly | crates/rdpilot-daemon/src/events.rs:714-746 | A message ends a call if and only if it has no method, an open id and a result or an error |
| CallRuns.CloseGivesUpInOrder | crates/rdpilot-daemon/src/events.rs:748-754 | The end of an attachment ends its open calls without an answer, oldest first |
| CallRuns.VerbsEndAsTheyStarted | crates/rdpilot-daemon/src/events.rs:601-642 | The end of a native verb is recorded under the number and name of its start with its own outcome |
| CallRuns.OnlyCallsOpen | crates/rdpilot-daemon/src/events.rs:673-686 | Only a tool call with a string or number as its id opens anything |
| CallRuns.RequestOpensItsId | crates/rdpilot-daemon/src/events.rs:673-712 | As a map from ids: a request sets its own id; beyond the replaced call only a full table loses its longest open call, without an answer |
| CallRuns.StepKeeps | crates/rdpilot-daemon/src/events.rs:673-764 | Every step keeps the count of starts, ends and open calls |
| CallRuns.AskAndStartIsObserve | crates/rdpilot-daemon/src/events.rs:673-712 | The two steps of a start with nothing between them are what the tracker does in one call |
| CallRuns.DrawnCanStart | crates/rdpilot-daemon/src/events.rs:482-493 | A number that was drawn can always be started, so none is lost |
| Crc.Crc16 | scripts/e2e/run-perf-proof.py:163-169 | The nested loops compute the checksum register over the bytes |
| Crc.CheckValue | scripts/e2e/run-perf-proof.py:163-169 | It is CRC-16/CCITT-FALSE: the digits 123456789 give its check value 0x29B1 |
| CrcBits.ShiftCanBeUndone | scripts/e2e/run-perf-proof.py:167-168 | A shift of the register is a bijection |
| CrcBits.ShiftKeepsOdd | scripts/e2e/run-perf-proof.py:167-168 | A shift keeps the parity of the register |
| Crc.RegisterByCell | scripts/e2e/run-perf-proof.py:163-169 | The byte-wise checksum is the cell-wise one |
| Crc.BurstChangesRegister | scripts/e2e/run-perf-proof.py:163-169 | A change inside 16 neighbouring cells always changes the register |
| Crc.OddChangesRegister | scripts/e2e/run-perf-proof.py:163-169 | An odd number of changed cells always changes the register |
| Crc.TwoChangesRegister | scripts/e2e/run-perf-proof.py:163-169 | Two changed cells among 64 always change the register: 1 to 63 shifts never bring its top bit back |
| BarCode.RoundTrip | scripts/e2e/run-perf-proof.py:172-191 | Every time decodes to itself modulo 2^48 |
| BarCode.RowLayout | scripts/e2e/run-perf-proof.py:172-180 | Every cell of a row: 1 0 1 0, the 48 time bits and the 16 checksum bits most significant first, 0 1 0 1 |
| BarCode.SyncIsChecked | scripts/e2e/run-perf-proof.py:183-186 | A row gives -1 if and only if it is too short or a frame cell is wrong |
| BarCode.OnlyEncodingsDecode | scripts/e2e/run-perf-proof.py:183-191 | A row decodes to a value if and only if it starts with the encoder's row of that value |
| BarCode.BurstIsNoticed | scripts/e2e/run-perf-proof.py:183-191 | Any misreading confined to 16 neighbouring time or checksum cells, so of any byte or of the checksum, is refused with -2 |
| BarCode.OddMisreadingIsNoticed | scripts/e2e/run-perf-proof.py:183-191 | Any misreading of an odd number of time and checksum cells is refused with -2 |
| BarCode.ThreeMisreadingsAreNoticed | scripts/e2e/run-perf-proof.py:183-191 | Any one, two or three misread time and checksum cells, wherever they are, are refused with -2 |
| BarCode.TimeIsRecoveredExactly | scripts/e2e/run-perf-proof.py:194-197 | A painted time is recovered exactly if and only if now minus it lies in [-2^47, 2^47) |
| BarCode.AnswerMatchesTheValue | scripts/e2e/run-perf-proof.py:194-197 | For every clock and value the answer is the one time in that window that matches the value |
| Percentile.IsNearestRank | scripts/e2e/run-perf-proof.py:202-207 | Of any list, in any order and for any rounding of the product: at least the share q of the values is at most the percentile and less than it is below, unless the product rounds down a rank and the values at the two ranks differ |
| Percentile.NearestRankIsUnique | scripts/e2e/run-perf-proof.py:202-207 | Those two counts fix the percentile |
| Install.ExtractionIsExact | crates/rdpilot-bridge/src/install.rs:91-127 | Counting entries suffices: a successful extraction holds exactly the listed names with their hashes and overwrites nothing |
| Install.ExtractsExactly | crates/rdpilot-bridge/src/install.rs:91-127 | An archive is extracted if and only if it has as many entries as listed files, each a plain file with a listed name and content, no two stored under one name and none over an existing file |
| Install.StagesExactly | crates/rdpilot-bridge/src/install.rs:156-173 | A bundle is staged if and only if archive and bridge are served with their listed content and the archive extracts over their two copies |
| Install.InstallationHasItsPrograms | crates/rdpilot-bridge/src/install.rs:76-89 | A complete installation has its manifest, the bridge, the driver and every listed file, each with its listed content |
| Bundle.NamesAreAcceptedExactly | crates/rdpilot-bridge-protocol/src/lib.rs:168-184 | Which file names are accepted, character by character |
| Bundle.NamesStayInside | crates/rdpilot-bridge-protocol/src/lib.rs:149-184 | An accepted file name or bundle id is one path component: never empty, a dot name, or with a separator |
| Bundle.NamesFitTheLimit | crates/rdpilot-bridge-protocol/src/lib.rs:149-184 | The limits of 255 bytes and 128 characters are reached and not exceeded |
| Install.ListedArchiveIsRefused | crates/rdpilot-bridge/src/install.rs:163-167 | An archive listed among its own files never extracts, so the branch that would keep it is never taken |
| Install.StagedIsInstalled | crates/rdpilot-bridge/src/install.rs:156-173 | A successful staging is a complete installation if and only if the archive is not stored under the bridge's name |
| Install.BridgeCanVanish | crates/rdpilot-bridge/src/install.rs:157-167 | A valid bundle whose archive has the bridge's name is staged and published without the bridge |
| Install.SecondInstallChangesNothing | crates/rdpilot-bridge/src/install.rs:142-199 | Without faults a second installation names the same directory, and changes nothing if the first left it complete, which it does unless the bridge names the archive |
| Install.Guest.constructor | crates/rdpilot-bridge/src/install.rs:144-151 | Nothing is installed at first |
| Install.Guest.IsInstalled | crates/rdpilot-bridge/src/install.rs:76-89 | The check never accepts an incomplete directory, and misses a complete one only on a fault |
| Install.Guest.Extract | crates/rdpilot-bridge/src/install.rs:91-127 | The extraction loop computes the specification and touches the staging directory only |
| Install.Guest.Copy | crates/rdpilot-bridge/src/install.rs:157-162 | A file is copied from the bundle and its arrived content checked |
| Install.Guest.CopyParts | crates/rdpilot-bridge/src/install.rs:157-162 | Archive and bridge are copied and checked in that order |
| Install.Guest.Finish | crates/rdpilot-bridge/src/install.rs:164-171 | The archive goes unless listed and the manifest is written |
| Install.Guest.StageFiles | crates/rdpilot-bridge/src/install.rs:156-163 | Copying and unpacking give the specified files, and fail without faults only where the specification does |
| Install.Guest.Stage | crates/rdpilot-bridge/src/install.rs:156-173 | Staging succeeds only with the specified directory, and fails without faults only where the specification does |
| Install.Guest.Rename | crates/rdpilot-bridge/src/install.rs:178-180 | Publishing moves the whole directory or changes nothing |
| Install.Guest.Swap | crates/rdpilot-bridge/src/install.rs:186-189 | An incomplete directory goes and the staged one takes its place |
| Install.Guest.RemoveAll | crates/rdpilot-bridge/src/install.rs:174-177 | Removing touches one directory only |
| Install.Guest.Replace | crates/rdpilot-bridge/src/install.rs:186-198 | An incomplete directory is replaced, and a winner found instead is used |
| Install.Guest.Publish | crates/rdpilot-bridge/src/install.rs:178-198 | Publishing ends with a ready directory or an error |
| Install.Guest.NewStage | crates/rdpilot-bridge/src/install.rs:151-155 | The staging directory starts empty |
| Install.Guest.Rebuild | crates/rdpilot-bridge/src/install.rs:151-198 | Staging and publishing together, and what is left when either fails |
| Install.Guest.Install | crates/rdpilot-bridge/src/install.rs:142-199 | Success means the manifest's directory is complete (unless the archive has the bridge's name); without faults the outcome depends on the data alone; no other directory is touched |

## Left out

- SessionControl.SessionControl.Expire: states the two critical sections with nothing between them; what can come between them is in the step machine, see `ExpiryEndsWhatItMeets`.
- ControlTheorems.NoOrphanedPress: a release whose send the loop or the queue refused is counted as given up and not as in flight.
- EventLog.SessionEvents.Record: time stamps, frame numbers and the log header are not modelled, and neither is the wrap-around of 64-bit sequence numbers.
- EventLog.SessionEvents.CallStarted: one recorder at a time; in `CallRuns` other recorders come between drawing the number and recording the start.
- EventLog.PanelShowsTheNewest: log ids are numbers that grow with each restart; in the code they are random. A refresh sees the log of one moment, so a request that a restart overtakes is not modelled.
- LineReader.Pipe.ReadLine: what JSON parsing makes of a line is not modelled; a line that does not parse ends the attachment like the other errors.
- Framing.Decoder.Push: a call that fails drops the frames it already decoded, as the code does; after an unreadable frame the decoder stays unusable.
- Install.Guest.Install: one installer at a time; other installers appear only as faults and refused renames. A removal that fails leaves arbitrary content in that directory.
- The wrap-around of the in-flight count (a machine word) and of attachment numbers.
- The event log entries of control changes, the human activity clock and the wording of refusals.
- The tool gate in front of the agent's calls (`cua_gate.rs`): which tools act, and the rewriting of tool lists.
- File transfers, apart from the one that the bridge may have running.
- Capacities and deadlines of queues: a send may fail at any time.
- Sockets, named pipes, Win32 calls, process containment, the HTTP viewer and the end-to-end scripts.
- Removal of the installation, command lines, configuration, the registry of sessions, recording files and reconciliation.
- Percentile.IsNearestRank: shares outside 0 to 1 give the least or the greatest value, which is not stated; the other summary statistics of the script are not modelled.
