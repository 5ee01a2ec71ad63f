# Peep's sound engine and protocols, verified

Peep plays the state of a network as sound. Its server mixes event sounds and continuous state sounds
in real time; clients tell it what to play. This project models the server's state machines and the
protocol code on both sides in Dafny and proves what they keep over whole runs.

- **The voice allocator, the mixer and the overflow heap** (`MixerQueue`, `DynamicVolume`, `Voices`,
  `VoiceRuns`, `Arrivals`, `Hearing`, `States`, `CrossFade`, `ShortHandOver`, `Output`, `PassRuns`,
  `StateRuns`, `StateHearing`, `MixerEngine`). An event gets a mixing channel by round robin or waits in a
  heap; the mixer advances every channel by a stereo frame, ends and refills them. In every run the four
  tables agree, no event is lost, it is turned away only if the heap is full, no channel idles while events
  wait, every sound is heard whole, sample by sample, as its event asked, and every fade starts once; and
  it is said in which runs no 16-bit sum wraps.
- **Recording and playback** (`Recording`, `Playback`, `PlaybackFile`). Events go to a wrapping file
  that is searched for its oldest record, searched by time and replayed.
- **The leases between clients and servers** (`Leases`, `LeaseTable`, `LeaseProtocol`,
  `BroadcastClient`). Each side sends only to the peers it knows and drops the ones it has not heard
  from; that both survive is one induction over both leases.
- **Around them**: the hand-off list (`EngineQueue`), packets and events on the wire (`Codec`), and the
  batching of notification mails (`Notifications`).

Imperative code is modelled by classes that work on arrays, nodes and fields in place. Each of their
methods is proved against a function on values, and the lemmas on whole runs are about those functions.
Times, random numbers, and whether a mail or packet gets through are parameters of the steps.

`dafny verify dfyconfig.toml` checks the project.

## Where the code departs from its comments

The model follows the code as written. Where the code does not do what its own comments or messages
promise, a lemma says exactly when it does, and another one shows an input with which it does not.

- `bubbleUp` (`server/mixer_queue.c:110`) takes (pos + 1) / 2 for the parent, while the children of pos
  are 2 * pos + 1 and 2 * pos + 2, so nothing ever moves into slot 0. When the most urgent entry is
  served nevertheless: `NextServedIsLeastIff`; when it is not: `UrgentNewcomerWaits`. The lemmas with
  `ByChildren` in their names show that the parent implied by the children makes it a correct priority
  queue.
- The tests for `bestc == 0` in `engineIO` (`server/engine.c:461`, `474`) are meant to find a sound to
  interrupt. They hold for no input: an event gets a channel exactly if one is idle (`RoundRobin`), and
  no arrival touches a channel that plays (`ArrivalLeavesPlayingChannels`).
- `QUEUE_EXPIRED` (`server/engine.h:214`) is five seconds in clock ticks but is compared with seconds:
  `AnyExpiresIff` (five million seconds), `SixSecondsAreNotTooLong`.
- The recorder resets its position once only (`server/playback.c:205`), so a long recording grows past
  the maximum that its header announces: `WithinMaximumIff`, `FileOutgrowsMaximum`. From twice the
  maximum on the start written at shutdown is the end of the file, and only the newest event is played
  back: `ReplayAfterShutdownIff`, `GoAfterShutdownIff`.
- At the end of the file the replay loop goes back to the beginning only if errno is EINTR
  (`server/playback.c:370-379`), though its message says that the end was reached:
  `StopsWithoutEintrIff`, `StuckAtEnd`. `PlayLoop` takes that arm, as the message says.
- If the end time lies after every record, playback is to end at the newest record; in a wrapped file
  the end that it chooses is another one: `GoToNewestIff`, `NewestIsMissed`.
- `serverPurgeHostList` goes on from the node that it has just freed (`server/udp_server.c:545`). Of two
  expired neighbours it leaves the second one linked and frees it, so that the list runs through freed
  memory: `PurgeHostList` says exactly when it does not, `PurgedKeepsIff` which nodes stay linked,
  `SecondNeighbourStays` shows an input. `PurgeBehindKept` is the loop with q left on the last node that
  stays; it leaves exactly the live leases. The protocol is proved with that one, and
  `TidyRunsAreRuns` carries it over to the runs as written whose alarms meet no such neighbours.
- `serverUpdateClient` looks at the host only: `UpdateRenewsIff`, `SecondClientIsNotRenewed`.
- The hand-off between server and engine is called a queue and hands out the last event first:
  `InOrderIff`, `SecondComesFirst`.
- A fade of two samples leaves left and right out of step: `InStepAfterHandoverIff`,
  `FrameOfShortestFade`. A volume on a bound that two thresholds share makes the fade mix in the wrong
  sound: `FadeMixesOwnSoundIff`, `FadeMixesInAnotherSound`.
- A comment (`server/mixer.c:809-812`) takes the weights of a fade to lie between 0 and 1. If the fade
  hands over a segment shorter than what has been played of it, the next weight is negative, the state
  louder than its volume, and a sum may wrap: `FrameIsTameIff`, `ShortHandOverIsTooLoud`,
  `SumWrapsAfterShortHandOver`.
- The servers copy an event out of a packet without comparing lengths (`server/server.c:358-376`):
  `NoticeArrivesByDatagramIff`, `CutBodyIsReadPastItsEnd`, `StaleNameIsRead`.
- Forcing the notification mails out stores the first notification again: `ForceRepeatsIff`,
  `ForceTellsTheFirstTwice`.

## Assumptions

- `engineIO` and the body of the mixer's loop for one channel are atomic steps, and so are the other
  operations; the locks are not modelled. The mixing of the states of one frame is one step.
- The bound on the output sum holds for events that come at any time, also between the passes over two
  channels of one frame, unless a sound has ended in that frame and the event gets a channel still to be
  passed (`NoSumWrapsAtAnyPoint`); `ArrivalWithinFrameWraps` shows that it may fail then.
- The bound on the output sum is for frames in which no state reads outside its arrays or hands over a
  segment shorter than what has been played of it (`FrameIsTameIff`). `OrderlyRunsAreDefined` gives runs
  in which that is always so, `LouderInMidFadeFaults` a state event after which it is not.
- There are at least two event channels. Event sounds have a positive, even number of samples, and the
  sound table knows every name that reaches the engine.
- `double` is modelled by `real`, so nothing is said about rounding. A cast to an integer type drops the
  fraction; the sums in the output cells wrap at 16 bits.
- In the cross-fade runs a state keeps its volume, which lies in one threshold only, and its segments
  are even and at least twice as long as the fade.
- In the lease protocol there is one client per host, on one port, and autodiscovery over UDP is on.
  Some clients and servers keep time: time does not pass the deadline of their ticks and alarms, nor of a
  packet on its way to them, so that such packets are not lost. The others may stop at any time.
- A read from a connection returns all that was asked for unless the peer has closed it.

## Model

| member | source | states |
|---|---|---|
| MixerQueue.EnqueueAddsOne | server/mixer_queue.c:78-136 | adding an event to the heap adds exactly that entry and loses none, with the parent index as written and with the one the child indices imply |
| MixerQueue.DequeueTakesOne | server/mixer_queue.c:138-212 | taking the next event removes exactly the returned entry |
| MixerQueue.FrontIsLeast | server/mixer_queue.c:138-212 | in a heap in order, slot 0 is at least as urgent as every other slot |
| MixerQueue.BubbledDownRestores | server/mixer_queue.c:164-212 | bubbleDown turns a heap that is in order except below one position into one in order |
| MixerQueue.BubbledUpByChildrenRestores | server/mixer_queue.c:101-136 | with the parent that the child indices imply, bubbleUp turns a heap that is in order except above one position into one in order |
| MixerQueue.EnqueueByChildrenKeepsOrder | server/mixer_queue.c:78-136 | with that parent, adding an event keeps the heap in order |
| MixerQueue.DequeueIsLeast | server/mixer_queue.c:138-212 | from a heap in order the event returned is a most urgent one, and the rest is in order |
| MixerQueue.DrainKeepsEntries | server/mixer_queue.c:138-212 | emptying the heap hands out exactly its entries |
| MixerQueue.DrainIsSorted | server/mixer_queue.c:138-212 | emptying a heap in order hands the entries out by urgency |
| MixerQueue.EveryRunByChildrenServesTheMostUrgent | server/mixer_queue.c:78-212 | with that parent, after any sequence of additions and removals the next event is a most urgent one and emptying the heap is sorted |
| MixerQueue.EqualsOvertake | server/mixer_queue.c:138-212 | equally urgent events are not served in the order in which they came: how two of them overtake one another |
| MixerQueue.BubbledUpLeavesFront | server/mixer_queue.c:101-136 | as written, bubbleUp never changes slot 0 |
| MixerQueue.NextServedIsLeastIff | server/mixer_queue.c:78-136 | as written, after any additions the next event served is a most urgent one if and only if no newcomer is more urgent than the entry that was in front |
| MixerQueue.UrgentNewcomerWaits | server/mixer_queue.c:101-136 | as written, of two events with priorities 5 then 3 the one with 5 is served first; with the other parent the one with 3 is |
| MixerQueue.BubbledUpKeepsUpOrder | server/mixer_queue.c:101-136 | as written, bubbleUp keeps slots 1 onwards in the order of its own parent index |
| MixerQueue.SlotOneIsLeast | server/mixer_queue.c:101-136 | in that order slot 1 is a most urgent one of slots 1 onwards |
| MixerQueue.BurstServesFirstComerThenLeast | server/mixer_queue.c:78-212 | as written, a burst into an empty heap is served so: the first comer, whatever its priority, and then a most urgent one of all the others |
| MixerQueue.OrderlyArrivalsAreServedInOrder | server/mixer_queue.c:78-212 | as written, while no arrival is more urgent than what waits, every run keeps the heap in order and serves a most urgent entry |
| MixerQueue.MixerHeap.Swap | server/mixer_queue.c:67-76 | in the array, exactly two entries change places |
| MixerQueue.MixerHeap.BubbleUp | server/mixer_queue.c:101-136 | the array afterwards is the bubbling up whose entries and order the lemmas describe; the loop ends |
| MixerQueue.MixerHeap.BubbleDown | server/mixer_queue.c:164-212 | the array afterwards is the bubbling down whose entries and order the lemmas describe; the loop ends |
| MixerQueue.MixerHeap.Enqueue | server/mixer_queue.c:78-99 | the array heap refines the addition that EnqueueAddsOne and NextServedIsLeastIff are about |
| MixerQueue.MixerHeap.Dequeue | server/mixer_queue.c:138-162 | returns slot 0 and leaves what DequeueTakesOne and DequeueIsLeast are about |
| DynamicVolume.FactorBounds | server/mixer.c:631-643 | whatever the number of busy channels, the product of group and individual multiplier lies between 1/2 and 9/16, and how it depends on the load |
| DynamicVolume.DynVolBounds | server/mixer.c:659-668 | a channel that starts gets between 1/2 and 9/16 of the headroom |
| DynamicVolume.VolStepEffect | server/mixer.c:645-668 | a start multiplies the headroom by 7/16 to 1/2, a stop gives back exactly the channel's share, and the shares keep summing to less than 1 |
| DynamicVolume.SharesNeverFillTheVolume | server/mixer.c:631-668 | in every run of starts and stops the shares are not negative and sum to less than 1 |
| DynamicVolume.HeadroomShrinks | server/mixer.c:631-668 | starts without a stop shrink any headroom geometrically, between powers of 7/16 and 1/2 |
| DynamicVolume.HeadroomDecay | server/mixer.c:631-668 | from silence, k starts leave a headroom between (7/16)^k and (1/2)^k |
| Voices.IdleFromIsFirst | server/engine.c:436-490 | the selection loop finds the first idle channel from where it stands, and none exactly if there is none |
| Voices.RoundRobin | server/engine.c:436-526 | an event gets the first idle channel in cyclic order after the last allocation, and none exactly if every channel plays |
| Sounds.PickIndexIff | server/mixer.c:210-250 | which draws pick which sound: each sound gets one of equal parts of what rand() returns |
| Sounds.EverySoundIsPicked | server/engine.c:543-553 | every sound that a name stands for is picked by some draw |
| VoiceRuns.InitialCoherent | server/mixer.c:68-106 | the tables agree when the mixer starts |
| VoiceRuns.CoherentMeans | server/mixer.c:119-206 | what agreeing means: no buffer iff start time 0 iff multiplier 0, then position 0; a playing channel is on a whole frame inside its sound; the counter counts the playing channels |
| VoiceRuns.StartCoherent | server/mixer.c:119-188 | starting a sound on an idle channel keeps the tables in agreement |
| VoiceRuns.StopCoherent | server/mixer.c:190-208 | removing a sound keeps them in agreement and returns exactly its share of the volume |
| VoiceRuns.AddOldEventCoherent | server/mixer.c:210-250 | refilling a channel from the heap, or dropping an expired entry, keeps them in agreement |
| VoiceRuns.AdvanceCoherent | server/mixer.c:454-502 | a pass of the mixer over a channel keeps them in agreement |
| VoiceRuns.ArriveCoherent | server/engine.c:436-564 | an event that reaches the engine keeps them in agreement |
| VoiceRuns.EveryRunIsCoherent | server/mixer.c:447-504 | every interleaving of arrivals and passes keeps them in agreement, the shares below 1 and the heap within its capacity |
| VoiceRuns.EveryEventIsAccountedFor | server/engine.c:496-517 | over every run each event that reached the engine is, as often as it came, in exactly one of: playing, waiting, played out, expired, discarded |
| VoiceRuns.EveryRunIsWorkConserving | server/mixer.c:486-502 | while events wait, no more channels idle than entries have expired |
| VoiceRuns.WaitingMeansAllBusy | server/mixer.c:486-502 | from the start, if nothing has expired, a non-empty heap means that every channel plays |
| VoiceRuns.NothingExpires | server/mixer.c:210-250 | in a run of less than five million seconds no entry expires |
| VoiceRuns.AnyExpiresIff | server/mixer.c:210-250 | in any run an entry expires if and only if a pass that ends a sound finds an entry at least five million seconds old in front of the heap |
| VoiceRuns.SixSecondsAreNotTooLong | server/mixer.c:210-250 | an event that has waited six seconds is played |
| VoiceRuns.ArrivalLeavesPlayingChannels | server/engine.c:436-564 | an arrival changes nothing about a channel that plays: the engine never interrupts a sound |
| VoiceRuns.AdvanceLeavesOtherChannels | server/mixer.c:454-502 | a pass over one channel, even if it ends and is refilled, changes no other channel |
| VoiceRuns.PlaysToTheEnd | server/mixer.c:454-502 | whatever else happens, a sound keeps its channel, data and share and after k passes has advanced exactly k frames |
| VoiceRuns.EndsAfterLastFrame | server/mixer.c:486-502 | the pass after the last frame finishes the event and leaves the channel empty or with the entry in front of the heap, exactly by whether there is one that has not expired |
| Arrivals.BusyArrivalWaitsIff | server/engine.c:494-517 | an event that finds every channel busy waits in the heap if that has room and is discarded if and only if it has none |
| Arrivals.AnyDiscardedIff | server/engine.c:494-517 | over any run, the events discarded are exactly those that arrived with all channels busy and the heap full |
| Arrivals.HeapOfRun | server/mixer.c:486-502 | over any run the heap goes through one addition for each event that has to wait and one removal for each sound that ends while events wait |
| Arrivals.ArrivalStarts | server/engine.c:519-564 | an event that finds an idle channel starts there: at its first frame, with the sound that the draw picks, its position, flags and priority, and its share; the next search begins behind it |
| Arrivals.RefillStarts | server/mixer.c:210-250 | the event in front of the heap starts in the same way on the channel that a sound has just left |
| Arrivals.LeftEmpty | server/mixer.c:190-208 | without one that may start, the channel is left as if it had never played |
| Arrivals.EveryChannelPlaysItsEvent | server/mixer.c:119-147 | over every run, what a channel plays is one of the sounds of its event, at the position and with the flags that the event asked for |
| Hearing.PassIsHeard | server/mixer.c:464-470 | a pass plays the frame that the channel is at: sample, share, 0.6, and the position or what is left of it |
| Hearing.EveryFrameIsHeard | server/mixer.c:451-503 | whatever else happens, the passes over a channel play the rest of its sound, frame by frame and in order |
| Hearing.ArrivalIsHeardWhole | server/mixer.c:451-503 | from its arrival on an idle channel to its last pass an event is heard whole: every frame of the sound drawn for it, once and in order, where it asked for |
| Hearing.FrameMovesChannel | server/mixer.c:451-503 | a frame of the mixer moves each channel on by one frame of its sound |
| Hearing.VoiceAfterFrames | server/mixer.c:447-563 | in every run of frames, events and state events a voice is, after n frames, n frames further |
| Hearing.FrameHoldsVoice | server/mixer.c:447-563 | each frame that the mixer writes is the next frame of a voice, added to what the others play |
| States.LastMatchIs | server/mixer.c:385-417 | the search for a state's sound takes the last threshold that the volume lies in, or the first of all |
| States.FirstMatchIs | server/mixer.c:358-373 | the search for a threshold's index takes the first one that the volume lies in |
| States.SearchesAgreeIff | server/mixer.c:358-417 | the two searches name the same threshold if and only if the volume lies in exactly one |
| States.FadeMixesOwnSoundIff | server/mixer.c:799-805 | a fade that starts will mix in the sound of the threshold that plays if and only if the volume lies in exactly one threshold |
| States.FadeMixesInAnotherSound | server/mixer.c:799-833 | at volume 153 of 255, on the bound of two thresholds, the upper one plays and the fade mixes in a sample of the lower one |
| States.FadePointIs | server/mixer.c:768-786 | the length of a fade is that of the fade time, rounded away from 0 to whole frames |
| CrossFade.FadeMixes | server/mixer.c:807-850 | inside a fade the incoming sample is in range, and the sound is handed over when the frame is the last of its segment |
| CrossFade.FrameBeforeFade | server/mixer.c:507-561 | away from a fade a frame is two samples of the segment |
| CrossFade.FrameStartsFade | server/mixer.c:791-807 | a fade starts on a left sample and draws the next segment; the right sample already mixes in its sample 0 |
| CrossFade.FrameInFade | server/mixer.c:807-850 | in a fade both samples are mixtures; the incoming segment runs one sample behind, so its channels are exchanged |
| CrossFade.FrameHandsOver | server/mixer.c:835-850 | the last frame hands over on its left sample, at position fade_pt - 2, and never takes the end-of-sound branch |
| CrossFade.SteadyFrame | server/mixer.c:507-561 | every frame plays, stays in step and changes only the playing position |
| CrossFade.EveryFadeStartsOnce | server/mixer.c:748-854 | in every run no read is out of range, positions stay even, and exactly one fade starts between two hand-overs |
| CrossFade.SegmentPlaysThrough | server/mixer.c:748-854 | a segment plays to its very end and is followed, fade_pt samples in, by the segment drawn by the frame fade_pt before the end |
| CrossFade.InStepAfterHandoverIff | server/mixer.c:775-850 | left and right are still in step after a hand-over if and only if fade_pt is at least 4 |
| CrossFade.WeightIsProper | server/mixer.c:821-833 | a weight lies between 0 and 1 and is positive while the outgoing segment has samples left |
| CrossFade.TameIsBounded | server/mixer.c:525-543 | a state adds at most its volume's share of 0.4 of the sample range to either channel |
| CrossFade.SteadyFrameIsTame | server/mixer.c:807-833 | in step, the weight of a running fade lies strictly between 0 and 1 |
| CrossFade.FrameIsTame | server/mixer.c:506-561 | any frame that reads inside its arrays and hands no shorter segment over is no louder than the volume, in whatever threshold and with or without a fade |
| CrossFade.FrameIsTameIff | server/mixer.c:807-846 | and only such a frame: the weights are proper if and only if the segment handed over is not shorter than what has been played of it; otherwise the right sample has a negative weight |
| CrossFade.FrameFaultsIff | server/mixer.c:506-561 | a frame of a state reads outside its arrays if and only if the frame of the playing segment, or an incoming sample that the fade needs, is not there: in terms of position, segment lengths and fade record |
| ShortHandOver.AheadComesToTheEnd | server/mixer.c:799-846 | a state on the bound of two thresholds, faded with the dither 1, comes from the start of its fade to the last frame of its segment |
| ShortHandOver.ShortHandOverIsTooLoud | server/mixer.c:807-846 | there it hands over a segment of one frame, 690 samples into it; the right sample has the weight -689 / 692 and almost twice the volume |
| ShortHandOver.SumWrapsAfterShortHandOver | server/mixer.c:447-563 | with another state and two event channels, volumes and shares within their bounds, a sum then leaves 16 bits |
| Output.NotYetPassed | server/mixer.c:449-504 | a channel not yet passed in a frame plays with the multiplier it had when the frame began, although channels before it have ended and been refilled |
| Output.FrameDefinedIff | server/mixer.c:506-561 | whether a frame of all states is defined, told before it from their positions, segment lengths and fade records |
| Output.EventPartBound | server/mixer.c:464-484 | the first k event channels add up to at most 0.6 of the range times the sum of their multipliers |
| Output.StatePartBound | server/mixer.c:506-543 | the first k states of a frame that is defined add up to at most 0.4 of the range times the sum of their volumes |
| Output.NoSumWraps | server/mixer.c:447-563 | no partial sum of a frame leaves the 16-bit range, after any number of event channels and states, wherever the volumes lie among the thresholds, fade filter on or off, if the state volumes sum to at most 1 |
| Output.MachineStepGood | server/mixer.c:447-563 | events, any state events that leave the volumes within 1, and frames that are defined keep all that this needs |
| Output.NoSumWrapsInAnyRun | server/mixer.c:447-563 | so no partial sum wraps after any such run of whole frames |
| Output.ArrivalWithinFrameWraps | server/mixer.c:449-504 | an event that gets a channel between two passes of one frame breaks the bound: sounds, shares and a sum that leaves 16 bits |
| PassRuns.ArrivalKeepsBounds | server/engine.c:436-564 | an event that comes between two passes keeps the multipliers played and still to be played below 1, if no sound has ended in the frame or it gets no channel still to be passed |
| PassRuns.PassKeepsBounds | server/mixer.c:449-504 | a pass, whether or not its sound ends and is followed by another, keeps that |
| PassRuns.PlayedStaysBelow | server/mixer.c:449-504 | so what the channels have played at any point of a frame stays within 0.6 of the range |
| PassRuns.FineStepGood | server/mixer.c:447-563 | arrivals, state events, passes and the mixing of the states keep all that the bound needs |
| PassRuns.NoSumWrapsAtAnyPoint | server/mixer.c:447-563 | at any point of any run whose steps are single arrivals and passes, guarded so, no sum has wrapped |
| PassRuns.ThirdMayNotCome | server/mixer.c:449-504 | the guard bars the event of ArrivalWithinFrameWraps |
| PassRuns.FrameIsPassByPass | server/mixer.c:447-563 | a whole frame is such a run: the passes over all channels in turn, and the states |
| StateRuns.UnfadedFrame | server/mixer.c:506-561 | a state without the fade filter, or with a fade of no length, stays on whole frames whatever thresholds its volume lies in |
| StateRuns.FrameKeepsOrder | server/mixer.c:506-561 | a frame of a state that is skipped, unfaded or in step is defined and leaves it so |
| StateRuns.SmoothEventKeepsOrder | server/engine.c:572-617 | a state event that silences, turns the fade off, or moves to a threshold where a fade may run leaves it so |
| StateRuns.LouderInMidFadeFaults | server/mixer.c:828-846 | a state event that turns the volume up in the middle of a fade, after which the frame reads outside its arrays |
| StateRuns.OrderlyRunsAreDefined | server/mixer.c:447-563 | every run of events, such state events and frames is defined throughout |
| StateRuns.OrderlyRunsDoNotWrap | server/mixer.c:447-563 | and none of its sums wraps |
| StateHearing.UnfadedFrameIs | server/mixer.c:506-561 | a frame of a state without a fade plays the two samples it is at, and the one at the end of a segment draws the next |
| StateHearing.UnfadedSegmentPlaysThrough | server/mixer.c:506-561 | from its first frame a segment is heard frame by frame, each once; after the last one the state is at the first frame of the segment that the draw picks |
| StateHearing.UnfadedIsHeard | server/mixer.c:506-561 | in every run such a state is heard as its segments one after the other, each whole and drawn at the end of the one before, and as silence from a missing one on |
| StateHearing.SteadyFrameIsHeard | server/mixer.c:748-854 | what is heard of a state with a fade: its segment outside a fade, and inside one both segments with their weights, sample by sample |
| StateHearing.StateEventSets | server/engine.c:572-617 | a state event sets volume, position, flags and fade length, each in its unit, and nothing else |
| StateHearing.StateAfterFrames | server/mixer.c:506-561 | a state to which no event is sent goes through the frames of a run as if it were alone |
| StateHearing.FrameHoldsState | server/mixer.c:506-561 | each frame that the mixer writes is what a state gives in its turn, added to what the others play |
| MixerEngine.Mixer.constructor | server/mixer.c:68-106 | the arrays start as the initial state that InitialCoherent is about |
| MixerEngine.Mixer.DynTotVol | server/mixer.c:645-657 | the loop over the multiplier array computes their sum |
| MixerEngine.Mixer.DynVol | server/mixer.c:659-668 | the share that DynVolBounds is about |
| MixerEngine.Mixer.AddEvent | server/mixer.c:119-188 | refuses a channel that has a buffer; otherwise sets buffer, counter and multiplier, and nothing else |
| MixerEngine.Mixer.SchedulerInit | server/engine.c:235-252 | sets one channel's schedule, and nothing else |
| MixerEngine.Mixer.RemoveEvent | server/mixer.c:190-208 | clears one channel in all four tables, and nothing else |
| MixerEngine.Mixer.AddOldEvent | server/mixer.c:210-250 | takes one entry out of the heap and starts it, or drops it as expired |
| MixerEngine.Mixer.FindChannel | server/engine.c:436-490 | the loop finds the channel that RoundRobin describes; its tests for bestc == 0 change nothing |
| MixerEngine.Mixer.QueueEvent | server/engine.c:496-517 | puts the event into the heap, or discards it if the heap is full |
| MixerEngine.Mixer.StartEvent | server/engine.c:519-564 | starts the event on the channel found and moves the round robin behind it |
| MixerEngine.Mixer.SetState | server/engine.c:572-617 | sets volume, position, flags and, unless the dither is 255, the fade time of one state |
| MixerEngine.Mixer.EngineIO | server/engine.c:396-635 | the whole step records the event if a recorder runs and refines the arrival that the lemmas on runs are about; an event sound leaves the states alone and a state event the channels |
| MixerEngine.Mixer.MixVoice | server/mixer.c:454-502 | a pass outputs the two samples of the frame that the channel is at, each scaled by share and position, and refines the step that the lemmas on runs are about |
| MixerEngine.Mixer.GetStateSndPtr | server/mixer.c:385-417 | the loop finds the threshold that LastMatchIs describes |
| MixerEngine.Mixer.GetStateThreshIndex | server/mixer.c:358-373 | the loop finds the threshold that FirstMatchIs describes |
| MixerEngine.Mixer.FadeEffect | server/mixer.c:748-854 | where no read is out of range, the arrays and the sample refine the fade that the lemmas of CrossFade are about |
| MixerEngine.Mixer.ApplyStateFilters | server/mixer.c:693-717 | runs the fade exactly if its flag is set |
| MixerEngine.Mixer.MixState | server/mixer.c:507-561 | one state's part of a frame refines the frame that the lemmas of CrossFade are about |
| MixerEngine.Mixer.Store | server/mixer.c:483-484 | adds to two 16-bit cells, wrapping |
| MixerEngine.Mixer.MixVoices | server/mixer.c:449-504 | one loop over the channels adds up what each played when the frame began |
| MixerEngine.Mixer.MixStates | server/mixer.c:506-561 | one loop over the states adds up what each plays |
| MixerEngine.Mixer.MixFrame | server/mixer.c:447-563 | both cells of a frame hold the exact sum of all that plays: nothing has wrapped |
| MixerEngine.Mixer.Mix | server/mixer.c:436-568 | every cell of a chunk holds the exact sum for its frame, and the state is that of the run of frames |
| MixerEngine.Mixer.CellHoldsVoice | server/mixer.c:447-563 | the cells of frame f of a chunk hold frame f of the sound of a voice that begins with the chunk, added to what the others play |
| MixerEngine.Mixer.CellHoldsState | server/mixer.c:447-563 | they hold what each state gives in its f-th frame |
| Recording.FileByHistory | server/playback.c:186-240 | which recorded event each slot of the file holds, after any number of events |
| Recording.FileIsEndOfHistory | server/playback.c:186-240 | after n events the file, read cyclically from the write position, is the last n, MAX or n - MAX of them, by whether n is up to MAX, up to 2 * MAX or more |
| Recording.WithinMaximumIff | server/playback.c:205-237 | the file stays within the maximum if and only if at most 2 * MAX events were recorded |
| Recording.FileOutgrowsMaximum | server/playback.c:205-237 | one event more than twice the maximum leaves a file of one record too many |
| Recording.RotatedOrder | server/playback.c:154-184 | in a rotated file of increasing times, time order is cyclic order from the oldest slot |
| Recording.FirstOffsetFindsOldest | server/playback.c:154-184 | comparing every record with the first one finds the oldest slot of any rotated file |
| Recording.OldestIsStartAtShutdown | server/playback.c:480-486 | on every recording that search agrees with the start that shutdown writes, up to the end of the file for slot 0; reading from there gives all that is retained in order |
| Recording.TimeFromIs | server/playback.c:427-467 | the search for a time looks at the records in cyclic order and stops at the first that is not before it |
| Recording.FindTimeFindsFirst | server/playback.c:427-467 | from the oldest slot it finds the chronologically first record not before the time, and nothing exactly if all are before it |
| Recording.FindTimeFromLater | server/playback.c:427-467 | and so it does from a later slot, if what is older is before the time |
| Playback.ReplayIsSegment | server/playback.c:361-418 | the replay loop plays, in order and once each, the records up to the first of start and end that it comes to |
| Playback.PlaysRound | server/playback.c:344-418 | from a slot without an end it plays every record once, in cyclic order |
| Playback.PlaysLastOnly | server/playback.c:344-418 | from the end of the file it plays the last record only |
| Playback.ReplayAfterShutdownIff | server/playback.c:313-418 | a recording that was shut down is played back in full and in order if and only if fewer than 2 * MAX events were recorded; otherwise only the newest is heard |
| Playback.ReplayAfterCrash | server/playback.c:327-418 | a recording that was cut off is always played back in full and in order |
| Playback.SecondOffset | server/playback.c:291-291 | where the second search for the oldest record ends up, starting after the start that was found |
| Playback.EndIsFirstAfter | server/playback.c:279-302 | it does not harm: with a record in the window, the end is the first record not before the end time |
| Playback.SegmentIsWindow | server/playback.c:361-418 | what lies between the two slots is exactly the window |
| Playback.PlaysWindowIff | server/playback.c:252-418 | with both times found, exactly the records with start <= time < end are played, oldest first, if and only if there is one |
| Playback.UnreadPassesForTheEnd | server/playback.c:427-467 | if the first record found is the last of the file and the variable that was never read passes for the end, a whole round is played |
| Playback.PlaysToNewestIff | server/playback.c:293-301 | with the end time after every record, playback runs on to the newest one if and only if the oldest record is in slot 0 or the start is the slot right behind the oldest one |
| Playback.NewestIsMissed | server/playback.c:293-301 | of a wrapped file of three records, played from the oldest, the newest is not heard |
| Playback.LoopRefinesReplay | server/playback.c:361-418 | if a read at the end of the file sets errno to EINTR, the loop stops and has played that segment |
| Playback.StopsWithoutEintrIff | server/playback.c:368-392 | with any other errno the loop stops if and only if its end lies ahead in the file |
| PlaybackFile.Stream.RecordEvent | server/playback.c:186-240 | writing in place refines the recorder that FileIsEndOfHistory is about |
| PlaybackFile.Stream.Shutdown | server/playback.c:480-486 | the start written at shutdown is the one of OldestIsStartAtShutdown |
| PlaybackFile.Stream.FindFirstOffset | server/playback.c:154-184 | the reading loop, whose prev never changes, computes the slot of FirstOffsetFindsOldest |
| PlaybackFile.Stream.FindTimeFrom | server/playback.c:427-467 | the reading loop ends and computes the slot of TimeFromIs, wherever it starts |
| PlaybackFile.Stream.PlayLoop | server/playback.c:361-418 | the reading loop ends and hands the engine the segment of ReplayIsSegment |
| PlaybackFile.Stream.FindBounds | server/playback.c:252-310 | the start and end that playbackGo chooses, with its two searches for the oldest record |
| PlaybackFile.Stream.Go | server/playback.c:242-425 | what playback hands to the engine, for every combination of times and for a file closed or cut off; the file is not changed |
| PlaybackFile.GoPlaysTheWindowIff | server/playback.c:242-425 | from any recording of increasing times, with both times found, playback hands over exactly the window's events, oldest first, if and only if there are any |
| PlaybackFile.GoAfterCrash | server/playback.c:321-418 | without times, a recording that was cut off is played in full, oldest event first, whatever start its header names |
| PlaybackFile.GoAfterShutdownIff | server/playback.c:321-418 | without times, one that was shut down is played in full if and only if fewer than twice the maximum were recorded; otherwise only the newest event is |
| PlaybackFile.GoWithoutEnd | server/playback.c:252-284 | with a start time only, what is played for every value that the end may happen to hold |
| PlaybackFile.GoToNewestIff | server/playback.c:286-303 | with an end time after every record, playback hands over everything up to the newest record if and only if the oldest is in slot 0 or the start is right behind it |
| PlaybackFile.GoFromTooLate | server/playback.c:252-303 | with a start time after every record, playback begins at slot 0, whichever record that is |
| Leases.NoListHasDuplicates | server/udp_server.c:327-548 | no list that the server builds, with the purge that keeps the list well linked, has two entries for one host and port |
| Leases.AddedIff | server/udp_server.c:327-380 | a broadcast gives its host and port a lease of 540 s, touches no other, and lengthens the list if and only if there was none |
| Leases.LiveIff | server/udp_server.c:492-548 | what a purge is to leave: the entries whose time is after now |
| Leases.LiveKeepsNoDuplicates | server/udp_server.c:492-548 | the purge that leaves exactly the live leases keeps a list without duplicates so |
| Leases.PurgedKeepsLive | server/udp_server.c:492-548 | the purge as written unlinks no live lease and keeps their order |
| Leases.PurgedIsLiveIff | server/udp_server.c:492-548 | the purge as written leaves exactly the live leases linked if and only if, behind the expired ones at the head, no two neighbours have expired |
| Leases.PurgedKeepsIff | server/udp_server.c:534-548 | entry by entry: which nodes the purge as written leaves linked, namely the live ones and, though it frees them, every second one of a run of expired ones behind a live one |
| Leases.SecondNeighbourStays | server/udp_server.c:534-548 | of two expired neighbours behind a live entry the second stays linked |
| Leases.UpdateRenewsIff | server/udp_server.c:298-323 | a still-alive packet renews the client's own lease if and only if no entry of the same host stands before it |
| Leases.SecondClientIsNotRenewed | server/udp_server.c:298-323 | of two clients on one host the second one renews the lease of the first |
| LeaseTable.Table.FindLeaseEntry | server/udp_server.c:439-454 | walking the links finds the first entry of the host and port |
| LeaseTable.Table.Append | server/udp_server.c:456-490 | a new node goes behind the last one; the list stays well linked |
| LeaseTable.Table.AddLeaseEntry | server/udp_server.c:456-490 | the list grows by one entry at its end, and nothing else changes |
| LeaseTable.Table.AddClient | server/udp_server.c:327-380 | renews the entry of the host and port or appends one, never both |
| LeaseTable.Table.UpdateClient | server/udp_server.c:298-323 | renews the first entry of the host, whatever its port |
| LeaseTable.Table.UnlinkExpired | server/udp_server.c:492-548 | the pointer loop as written, going on from the node it has just freed, ends; how the links then run, and that every expired node is freed |
| LeaseTable.Table.PurgeHostList | server/udp_server.c:492-548 | as written: what the list is linked to, that every expired node is freed, and that no linked node is freed if and only if, behind the head, no two neighbours have expired |
| LeaseTable.Unlink | server/udp_server.c:534-541 | the link past a node that is then freed is the only one that changes |
| LeaseTable.Table.PurgeBehindKept | server/udp_server.c:492-548 | with q left on the last node that stays, the list is well linked, holds exactly the live leases in order and no freed node, and every expired node is freed |
| LeaseTable.Table.Remove | server/udp_server.c:534-541 | taking one node out of the list leaves the others well linked, in order and unchanged |
| LeaseProtocol.PairsStay | server/udp_server.c:556-632 | with that purge, a client and a server that have each other and keep time keep each other in every run, whatever other peers do or cease to do, if alarm interval plus delay stays below 300 s and tick interval plus delay below 540 s |
| LeaseProtocol.AlarmTellsIff | server/udp_server.c:556-632 | an alarm sends to the clients whose leases have not run out, and to nobody else |
| LeaseProtocol.TickTellsAndKnowsIff | client/Net/Peep/BC/BC.pm:537-650 | a tick sends to the servers known before it; then exactly those are known that were heard from, for 300 s, or whose time has not run out |
| LeaseProtocol.StepKeepsServerSafe | server/udp_server.c:298-323 | every step keeps the server's lease of the client outlasting the next packet from it |
| LeaseProtocol.StepKeepsClientSafe | client/Net/Peep/BC/BC.pm:577-650 | every step keeps the client's entry of the server outlasting the next packet from it |
| LeaseProtocol.DefaultsArePromptIff | server/udp_server.h:52-54 | with alarms every 270 s and ticks every 90 s that is so if and only if packets take less than 30 s |
| LeaseProtocol.SlowPacketsPartPairs | client/Net/Peep/BC/BC.pm:537-575 | the first bound is exact: with alarm interval plus delay at 300 s or more the client can lose the server although all is in time |
| LeaseProtocol.SlowTicksPartPairs | server/udp_server.c:618-632 | so is the second: with tick interval plus delay at 540 s or more the server can lose the client |
| LeaseProtocol.HelloStartsJoining | server/udp_server.c:253-289 | a broadcast that reaches the server adds the client and answers it |
| LeaseProtocol.StepKeepsJoining | client/Net/Peep/BC/BC.pm:577-629 | until the answer is read, every step keeps it under way and the lease alive |
| LeaseProtocol.JoiningLeadsToPair | client/Net/Peep/BC/BC.pm:537-575 | one delay and one tick after a broadcast reached the server, the two are a pair for good if they keep time, whatever others do or cease to do |
| LeaseProtocol.SilentServerIsDropped | client/Net/Peep/BC/BC.pm:631-650 | a server that has fallen silent, stopped or not, is gone by the first tick after its entry has run out, which its last packets may have renewed |
| LeaseProtocol.StoppedServerIsDropped | client/Net/Peep/BC/BC.pm:537-650 | a run in which a server that stops right after it was heard from is dropped, past the end of its entry |
| LeaseProtocol.SilentClientIsDropped | server/udp_server.c:618-632 | a client that has fallen silent, stopped or not, is gone by the first alarm after its lease has run out, which its last packets may have renewed |
| LeaseProtocol.StoppedClientIsDropped | server/udp_server.c:492-632 | a run in which a client that stops right after its lease was renewed is dropped, past the end of its lease |
| LeaseProtocol.AsWrittenIff | server/udp_server.c:618-632 | an alarm with the purge as written is the same step if and only if, behind the expired leases at the head, no two neighbours have expired |
| LeaseProtocol.TidyRunsAreRuns | server/udp_server.c:492-632 | a run as written in which every alarm meets that is a run of the protocol, so all of the above holds of it |
| BroadcastClient.BcClient.Hello | client/Net/Peep/BC/BC.pm:145-191 | a still-alive packet goes to every known server and to no other |
| BroadcastClient.BcClient.UpdateServerList | client/Net/Peep/BC/BC.pm:577-629 | each server heard from is known for five minutes from now; the others are as before |
| BroadcastClient.BcClient.UpdateServer | client/Net/Peep/BC/BC.pm:745-770 | one server's expiry is set from the minutes and seconds of its packet, the others' are not |
| BroadcastClient.BcClient.PurgeServerList | client/Net/Peep/BC/BC.pm:631-650 | the hash keeps exactly the servers whose time has not run out |
| BroadcastClient.BcClient.HandleAlarm | client/Net/Peep/BC/BC.pm:537-575 | a tick sends to the servers known before it reads, and refines the protocol's tick; a broadcast goes out after 40 ticks without a server |
| EngineQueue.HandOff.Enqueue | server/engine_queue.c:50-81 | the doubly linked list stays well linked both ways, the semaphore counts it, and the event is its new last one |
| EngineQueue.HandOff.Dequeue | server/engine_queue.c:83-108 | once the semaphore grants it, the list is not empty, the last event comes out and the list stays well linked |
| EngineQueue.HandOff.QueueEmpty | server/engine_queue.c:110-115 | true exactly if no event waits |
| EngineQueue.HandOffConserves | server/engine_queue.c:50-108 | over every run no event is lost or handed out twice |
| EngineQueue.BurstComesOutReversed | server/engine_queue.c:83-108 | events that wait behind one another come out in the opposite order |
| EngineQueue.InOrderIff | server/engine_queue.c:50-108 | over any run of distinct events, what is taken comes out in the order of arrival if and only if every take finds exactly one event waiting |
| EngineQueue.SecondComesFirst | server/engine_queue.c:50-108 | two events that wait come out the other way round |
| Codec.NtohlUndoesPackN | client/Net/Peep/Data/Notice/Notice.pm:87-87 | reading a number in network byte order gives back its low 32 bits |
| Codec.NoticeLayout | client/Net/Peep/Data/Notice/Notice.pm:73-91 | where the fields of a notice are in what a client packs |
| Codec.MagicOnTheWire | server/server.h:42-42 | the magic number is on the wire as DE AD BE EF |
| Codec.WireParts | client/Net/Peep/BC/BC.pm:488-496 | where the parts of a packet are, and that the server reads them as they were meant |
| Codec.PacketsArriveInOrder | server/tcp_server.c:201-352 | the bodies of any list of packets come out in order, with type and content, and the servlet then stands at the next packet |
| Codec.PacketIsDelivered | server/tcp_server.c:258-348 | broadcasts and client events are handed on with their bodies, other packets are read over |
| Codec.CutPacketEnds | server/tcp_server.c:213-348 | after whole packets a cut one delivers nothing; how the servlet ends by where it was cut |
| Codec.StrayHeaderIsSkipped | server/tcp_server.c:236-260 | sixteen bytes without the magic number are passed over; a negative length ends the connection in the model |
| Codec.WireIsUnambiguous | server/tcp_server.c:201-352 | no two lists of client events look alike on the wire |
| Codec.DeliveredSoFarStands | server/tcp_server.c:201-352 | what has been delivered when a transmission is cut is the beginning of what the whole would have delivered |
| Codec.Servlet.Read | server/tcp_server.c:219-219 | a read returns what was asked for, or what is left |
| Codec.Servlet.ServerServlet | server/tcp_server.c:201-352 | the read loop ends with the connection and delivers what the lemmas on framing are about |
| Codec.Servlet.Turn | server/tcp_server.c:213-348 | one round either ends the connection or goes on strictly further in the data, and nothing already delivered changes |
| Codec.Servlet.Process | server/tcp_server.c:262-345 | which packet types are delivered |
| Codec.NoticeComesBackIff | client/Net/Peep/Data/Notice/Notice.pm:73-91 | decoding an encoded notice gives it back, whatever follows in the buffer, if and only if its numbers fit their fields |
| Codec.UdpServer.ProcessEvent | server/server.c:358-387 | where the copying stays inside the body, fields and name are decoded as NoticeComesBackIff says |
| Codec.UdpServer.Receive | server/udp_server.c:118-208 | a datagram overwrites the beginning of the buffer, and an event in it is decoded from there, where that reads inside the buffer |
| Codec.NoticeArrivesByDatagramIff | server/udp_server.c:118-208 | for a notice that comes by datagram the server reads no further than its buffer if and only if the sound's name has at most 480 bytes; then the notice arrives, whatever the buffer held |
| Codec.OtherPacketsAreIgnoredIff | server/udp_server.c:118-208 | a datagram is taken for an event if and only if its type and content type say so |
| Codec.StaleNameIsRead | server/udp_server.c:118-208 | if only the fields of an event arrive, its sound's name is what an earlier packet left in the buffer |
| Codec.CutBodyIsReadPastItsEnd | server/server.c:358-376 | for a body that was cut short the server copies from behind its end |
| Notifications.WhatPassesIsDue | client/Net/Peep/Notifier/Notifier.pm:151-161 | a notification that notify lets pass is never left out by the filter of the mail, although the two tests differ |
| Notifications.AllAreDue | client/Net/Peep/Notifier/Notifier.pm:238-260 | so the filter leaves out nothing that is kept |
| Notifications.PassesIff | client/Net/Peep/Notifier/Notifier.pm:151-161 | which statuses pass which level |
| Notifications.HostsMatchIff | client/Net/Peep/Notifier/Notifier.pm:142-149 | which lists of hosts let a notification pass |
| Notifications.EveryNotificationIsToldOnce | client/Net/Peep/Notifier/Notifier.pm:115-236 | over every run, what a client's mails that went out tell, followed by what is kept, is what notify took, in order, each once: a failed mail loses nothing |
| Notifications.MailsAreSpaced | client/Net/Peep/Notifier/Notifier.pm:48-71 | without force, two mails for one client are more than the interval apart |
| Notifications.MailGoesOutIff | client/Net/Peep/Notifier/Notifier.pm:163-236 | a call mails if and only if the notification is taken, the last mail for the client is longer ago than the interval or the mail is forced, and a relay takes it; the mail tells everything kept, most recent first |
| Notifications.SendTimeIsLastMail | client/Net/Peep/Notifier/Notifier.pm:211-236 | over every run the send time that is kept is that of the last mail for the client |
| Notifications.AnswerMeans | client/Net/Peep/Notifier/Notifier.pm:163-236 | what each answer says of a notification that is taken: a mail went out or none was due, no relay took it, or the level is empty |
| Notifications.RefusalMeans | client/Net/Peep/Notifier/Notifier.pm:115-161 | what each answer says of one that is not taken |
| Notifications.ForcedMailGoesOutIff | client/Net/Peep/Notifier/Notifier.pm:379-400 | when force mails for a client, and what the mail says |
| Notifications.ForceTellsTheFirstTwice | client/Net/Peep/Notifier/Notifier.pm:379-400 | a forced mail tells the first notification kept twice |
| Notifications.ForceRepeatsIff | client/Net/Peep/Notifier/Notifier.pm:379-400 | forcing repeats a notification if and only if some client with a send time has one kept that notify takes again; it repeats the first of each such client and nothing else, in whatever order it comes to them |
| Notifications.ForceAfterCallsRepeatsIff | client/Net/Peep/Notifier/Notifier.pm:379-400 | after any calls of notify that is so for every client with a send time and anything kept |
| Notifications.Notifier.Force | client/Net/Peep/Notifier/Notifier.pm:379-400 | the loop over the clients calls notify for each that has a send time and something kept, with its first notification |
| Notifications.Notifier.CheckHosts | client/Net/Peep/Notifier/Notifier.pm:142-149 | the loop lets the host pass if and only if some entry names it or all, and none says "none" |
| Notifications.Notifier.GetBody | client/Net/Peep/Notifier/Notifier.pm:262-309 | the mail tells the notifications in reverse |
| Notifications.Notifier.Store | client/Net/Peep/Notifier/Notifier.pm:311-322 | the notification is kept behind the others of its client, and nothing else changes |
| Notifications.Notifier.SendAll | client/Net/Peep/Notifier/Notifier.pm:211-236 | if a relay takes the mail, the send time is set and the buffer emptied; otherwise nothing changes |
| Notifications.Notifier.Notify | client/Net/Peep/Notifier/Notifier.pm:115-209 | every answer and every new state of notify, error cases included |

## Left out

- Sound devices, sockets, SSL, signals, threads and locks: calls into the system.
- Interleavings inside an atomic step, such as the engine starting a sound while the mixer removes one.
- The sound hash table: its lookup is a given function from names to sounds. Loading of sounds and of
  state thresholds is left out with it; a state's thresholds are part of its given state.
- XML notices, themes, configuration files and command lines.
- `client/Net/Peep/Scheduler/Scheduler.pm`, daemon start-up, logging, and freeing memory at shutdown.
- The broadcast packets themselves: the class strings in them, `addnewserver` and the answer with
  PROT_BC_SERVER. A broadcast that reaches a server is one step of the protocol, which adds the client
  and answers with a still-alive packet.
- The switch from one `errno` to another during a playback, sleeping between events, the byte layout of
  the file and its header, errors of the file system, and playback of a file without records.
- The formatting of mails, their delivery, and `flush`, which passes a client's name to notify instead
  of a notification.
- UDP packets other than events; a connection that is closed inside a header (the servlet would reuse
  what its header variable held); packet lengths that are negative as an int.
- MixerQueue.BubbledUp: as written, on a heap that has served some events and then takes more urgent
  ones, the order is described only while nobody overtakes (`OrderlyArrivalsAreServedInOrder`); for
  additions alone it is described completely (`NextServedIsLeastIff`, `BurstServesFirstComerThenLeast`).
- LeaseTable.Table.PurgeHostList: a node that is freed keeps its contents until the pass ends, as the
  code assumes when it goes on from it. What happens later to a list that is linked to a freed node is
  not modelled, since the other operations need a list without one; memory that is allocated again
  would take the rest of the list with it.
- MixerEngine.Mixer.FadeEffect: is defined only where the code reads inside its arrays; what C does
  otherwise is not modelled.
- Playback.PlaysWindowIff: assumes, if the first record found is the last of the file, that the record
  variable that was never read does not pass for the end, because its value is undefined; what happens
  if it does is `UnreadPassesForTheEnd`.
- LeaseProtocol.PairsStay: is for the purge that keeps the list well linked, and so are
  `JoiningLeadsToPair` and `SilentClientIsDropped`. As written they hold of the runs whose alarms meet
  no two expired neighbours behind the head (`TidyRunsAreRuns`); after another alarm nothing is said.
- CrossFade.EveryFadeStartsOnce: is for a state that is not sent a state event meanwhile; the state
  events that leave it in step are those of `SmoothEventKeepsOrder`.
- Notifications.Notifier.Force: the number that force returns, which is that of the last client only and
  is printed at shutdown (`client/Net/Peep/Client/Client.pm:409`).
