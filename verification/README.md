# MPE Emulator: a verified model

MPE Emulator is a MIDI effect that turns an ordinary stream of notes and controllers into MIDI Polyphonic Expression:
every sounding note gets a channel of its own, and up to nine rules route controllers to the channels of chosen notes.
This project models the plugin's engine in Dafny and proves what its parts promise, alone and together.

## What is modelled

**The voice allocator and router** (`src/proxy.cpp`, `src/note_stack.cpp`, `src/queue.cpp`).

- `NoteStack.dfy`, `Queue.dfy`: the doubly linked list inside two arrays, with its extremes, and the FIFO ring, as
  classes over arrays with a ghost sequence.
- `Keyboard.dfy`: the three note stacks (all notes, and the two sides of the anchor) with their cached statistics.
- `Params.dfy`, `Distortion.dfy`, `Midi.dfy`, `Sequences.dfy`: parameters, rules, the value pipeline, numbers.
- `ProxyModel.dfy`: what every call means, on plain values: a state, and the events the call emits.
- `Proxy.dfy`: the class over the linked lists, the ring and the caches. Every method is proved to produce exactly the
  state and the events of the model. A ghost trace keeps every event ever given to `push_out_event`, since the buffer
  for the host is cleared between blocks and on resets.
- `ProxyInvariant.dfy`, `Retargeting.dfy`, `ProxyRuns.dfy`, `ProxyRouting.dfy`, `ProxyProperties.dfy`,
  `ChannelOrder.dfy`: theorems about calls and about whole runs.
- `ProxyCalls.dfy`, `ProxyControllers.dfy`, `ProxyResets.dfy`, `ProxyAnswers.dfy`: the complete answer to every call,
  said from outside: which rule sends which value to which channel, in which order, and nothing else.
- `ProxyHost.dfy`: a host that makes any safe sequence of calls on the class; here the theorems about runs become
  statements about the linked lists.

**The other cores.**

- `SpscQueue.dfy`: the lock-free ring between the GUI and the audio thread, as interleaved atomic steps, and the shared
  object whose methods are those steps.
- `MidiDispatcher.dfy`: the parser of MIDI bytes with running status (MIDI 1.0 Detailed Specification, "Running
  Status"), proved equal to an automaton that takes one byte at a time.
- `Lines.dfy`, `Parsing.dfy`, `ProgramText.dfy`, `BankText.dfy`, `Bank.dfy`: lines, section names and parameter names;
  programs and banks as text, and the classes that keep that text up to date.
- `Decimals.dfy`, `Settings.dfy`, `Serializer.dfy`: settings as text, with the in-place trimming of zeros.

## The list of deferred notes

Taking out the newest of several notes leaves its `next` link behind (`src/note_stack.cpp:250-259`). If that note is
later taken out again while it is not in the list, and the link points behind the head, the list is damaged:
`UnlinkedAbsent` and the contract of `Remove` state this as an equivalence. The three main stacks never come into this
situation. The stack of deferred note-offs does, when a deferred note is triggered again or stolen while the pedal is
down. `ReleasedTwice` names calls that lead there from power-on: after them the next release of the pedal would send two
note-offs for one note.

The model therefore carries two things: the deferred notes as a sequence, which says what is meant, and the very links
of the list, which say what the code will walk through. Nothing but a release of the pedal walks through them. The class
follows the model in every run, damaged list or not, as long as each such walk pops just the deferred notes (`Pops` of
the links equals `deferred`); calls that respect this are called *safe*. `ListStaysIntact` says exactly which calls
damage an intact list, and `CleanRunsAreSafe`, `TameRunsAreClean` and `HeldRunsAreSafe` give conditions under which
whole runs are safe: no call stops a note with such a left-over link; Z1SUS stays off; Z1SUS stays on and Z1ENH ignores excess
notes; the pedal is never lifted. Theorems about runs of the model speak of all runs; those about the class, in
`ProxyHost`, of safe ones.

## Where code and comments differ

- Any status byte, real-time messages included, replaces the running status (`src/midi.hpp:427-430`); modelled as
  written.
- `Queue::length` is right exactly until the ring has wrapped (`src/queue.cpp:81-84`); `WrappedLength` exhibits a ring
  with one item for which it is 2^64 - 1. Nothing depends on it.
- The comment at `src/math.cpp:97` claims a slope of 1 at both ends, where the polynomial has slope 11
  (`SharpSharpSlope`).
- Configuration messages go to the managers of both zones (`src/proxy.cpp:1489-1512`), also when all fifteen other
  channels are members and the other manager is one of them (`AnnouncingReachesAMember`).
- Two operations of the note stack lose its oldest note (`src/note_stack.cpp:115-121` and `157-175`); the exact conditions
  are part of the contracts of `Push` and `Pop`.
- A program name that is empty or starts with `;` is not read back; `BankRoundTrip` states this as an equivalence.

## Model

| member | source | states |
|---|---|---|
| Midi.NearestByteAndWord | src/midi.hpp:49-59 | Ratios become the nearest 7-bit or 14-bit number, halves upwards. |
| NoteStacks.LinkedHolds | src/note_stack.cpp:123-128 | Linking an absent note at the head gives a well-formed list of the note followed by the former list. |
| NoteStacks.PoppedHolds | src/note_stack.cpp:157-175 | Unlinking the head gives a well-formed list of the rest. |
| NoteStacks.UnlinkedHoldsAt | src/note_stack.cpp:237-264 | Unlinking a note at any position gives a well-formed list of the others in order. |
| NoteStacks.UnlinkedAbsent | src/note_stack.cpp:237-264 | Unlinking an absent note is harmless if and only if its left-over link does not point behind the head. |
| NoteStacks.StaleLink | src/note_stack.cpp:250-259 | After push b, push a, remove a, push c the list is c, b, but a still points to b. |
| NoteStacks.StaleLinkDamages | src/note_stack.cpp:246-248 | Removing a again makes the list forget that b is in it; pushing b again then closes a cycle, and releasing all notes releases b, c and b again. |
| NoteStacks.ReleasedShrinks | src/proxy.cpp:1090-1097 | Every release removes a link or empties the list, so the loop over the deferred notes ends even when the list is damaged. |
| NoteStacks.PopsHeld | src/proxy.cpp:1090-1097 | From an intact list the notes come off in order, once each. |
| NoteStacks.MembershipByLinks | src/note_stack.cpp:150-153 | The head and the backward links decide membership for every note number. |
| NoteStacks.NoteStack.constructor | src/note_stack.cpp:36-40 | A new stack is empty and no note has any link. |
| NoteStacks.NoteStack.Clear | src/note_stack.cpp:43-53 | Clearing empties the stack and leaves no link of any note. |
| NoteStacks.NoteStack.Find | src/note_stack.cpp:70-78 | True exactly for the notes in the stack. |
| NoteStacks.NoteStack.Push | src/note_stack.cpp:109-140 | The note comes to the front of the others, numbers out of range change nothing, extremes stay minimum and maximum, and the oldest note is lost exactly when the sole element is pushed again. |
| NoteStacks.NoteStack.Pop | src/note_stack.cpp:157-175 | Takes the newest note and leaves the rest in order with correct extremes and no link of its own; the cached oldest note goes stale exactly when the last note is popped. |
| NoteStacks.NoteStack.Remove | src/note_stack.cpp:237-264 | Takes a note out of a list in any condition. A list in order stays so if and only if the note was in it or its left-over link does not point behind the head; exactly the newest of several notes keeps a link. |
| NoteStacks.NoteStack.UpdateExtremesAfterRemove | src/note_stack.cpp:179-221 | The lazy rescan restores minimum and maximum whichever note has left. |
| NoteStacks.NoteStack.CollectActiveChannels | src/note_stack.cpp:268-280 | The channels of the notes from newest to oldest. |
| NoteStacks.NoteStack.MakeStats | src/note_stack.cpp:284-305 | The channels of the minimum, the maximum, the last and the first note of the sequence, or invalid channels when it is empty. |
| Queues.Queue.Push | src/queue.cpp:44-57 | Appends at the end, or refuses exactly when the ring is full, across wrap-arounds. |
| Queues.Queue.Pop | src/queue.cpp:70-77 | Takes the first item, across wrap-arounds. |
| Queues.Queue.Length | src/queue.cpp:81-84 | The computed length is right if and only if the ring has not wrapped, and otherwise off by a fixed amount. |
| Queues.WrappedLength | src/queue.cpp:81-84 | A ring for one item, filled, emptied and filled again, reports 2^64 - 1. |
| Keyboards.OtherSideUnchanged | src/proxy.cpp:468-494 | A new note changes the statistics of no stack on the other side of the anchor. |
| Keyboards.Keyboard.Add | src/proxy.cpp:468-494 | Although one side only is refreshed, all three cached statistics are those of the notes and of both their order-preserving halves. |
| Keyboards.Keyboard.Take | src/proxy.cpp:833-839 | A note leaves all three stacks, even one that has been popped off the first; statistics and halves stay right. |
| Keyboards.Keyboard.PopNewest | src/proxy.cpp:1470-1471 | The newest note comes off the first stack only. |
| Keyboards.Keyboard.Clear | src/proxy.cpp:1481-1483 | All three stacks are empty and the side stacks keep no link. |
| Keyboards.Keyboard.MoveAnchor | src/proxy.cpp:1436-1442 | The anchor may move while nothing sounds without breaking the halves. |
| Keyboards.Keyboard.ExtremeOfSide | src/proxy.cpp:996-1050 | Lowest, highest, oldest or newest note of one side, computed from its stack. |
| Distortion.CombineBetween | src/math.cpp:134-145 | An interpolated value lies between its ends. |
| Distortion.LookupMonotone | src/math.cpp:169-184 | Interpolation in a sorted table is monotone over all indices. |
| Distortion.DistortMonotone | src/math.cpp:148-166 | Distortion over a sorted table is monotone at every level. |
| Distortion.FullLevelIsCurve | src/math.cpp:148-184 | At level 1 the output is the weighted mean of the two table entries around the input. |
| Distortion.FullLevelAtGrid | src/math.cpp:148-184 | At level 1 and a grid point it is the table entry. |
| Distortion.LevelBlends | src/math.cpp:148-166 | From level 0.0001 on, the output departs from the input by the level times what it would at level 1; below, not at all. |
| Distortion.SharpSharpIsOddPower | src/math.cpp:85-131 | The Horner scheme computes ((2x-1)^11 + 1) / 2. |
| Distortion.SharpSharpMonotone | src/math.cpp:85-131 | It maps the unit interval to itself, monotonically. |
| Distortion.SharpSharpSlope | src/math.cpp:85-131 | At 0 its slope is 11, since it lies between 11 x and 11 x - 110 x^2, and it is symmetric about the midpoint. |
| Distortion.SmoothSharpMonotone | src/math.cpp:73-76 | So does the fifth power. |
| Distortion.InitPolynomialTables | src/math.cpp:39-64 | The tables of both polynomial curves are sorted, run from 0 to 1 and hold the fifth power and the shifted eleventh power at every grid point. |
| Params.RatioOfValue | src/proxy.cpp:93-137 | A parameter's ratio gives its value back even when slightly off. |
| Params.ClearedIsDefault | src/proxy.cpp:1376-1390 | Setting every default ratio gives every parameter its default value. |
| Params.BentInRange | src/proxy.cpp:170-176 | Moving the midpoint keeps a value in the unit interval and on its side of the midpoint. |
| Params.BentMeans | src/proxy.cpp:170-182 | The halves of the input go to the ranges below and above the midpoint, each on a straight line, and inversion mirrors the result. |
| Params.RuleBlends | src/proxy.cpp:170-182 | A rule distorts the bent input, with its own curve and in proportion to its level. |
| Params.RuleDistortMonotone | src/proxy.cpp:170-182 | A rule over a monotone curve is monotone, or antitone when inverted. |
| Params.DefaultRulesAreDefaultShaped | src/proxy.cpp:138-167 | The rules of a default parameter table have the default shape. |
| Params.DefaultShapeForwards | src/proxy.cpp:170-182 | A default-shaped rule forwards every 7-bit and every 14-bit value unchanged. |
| ProxyModel.Victim | src/proxy.cpp:434-455 | The note to steal is an active one. |
| ProxyInvariant.ConservedMeans | src/proxy.cpp:328-338 | Conservation: free channels and channels of active notes together list each member channel exactly once, none of them the manager. |
| ProxyInvariant.ChannelsInjective | src/proxy.cpp:402-465 | Two active notes never share a channel, and no sounding channel is free. |
| ProxyInvariant.InitialKeeps | src/proxy.cpp:239-311 | A new proxy satisfies the invariant, with all member channels free in order. |
| ProxyInvariant.SomeNoteSounds | src/proxy.cpp:427-432 | The branch that is asserted not to be reached is unreachable: without a free channel some note sounds. |
| ProxyInvariant.NoteOnKeeps | src/proxy.cpp:402-465 | A note-on keeps the invariant. |
| ProxyInvariant.NoteOffKeeps | src/proxy.cpp:1123-1159 | A note-off keeps the invariant. |
| ProxyInvariant.ReleaseDeferredKeeps | src/proxy.cpp:1090-1097 | Releasing the deferred notes keeps the invariant and defers nothing more. |
| ProxyInvariant.ControlKeeps | src/proxy.cpp:921-1087 | A controller event keeps the invariant. |
| ProxyInvariant.RestartKeeps | src/proxy.cpp:1399-1457 | After a restart nothing sounds, nothing is deferred, the pedal is up and the free channels are the new zone's members in order. |
| Retargeting.CachedChannelIsTarget | src/proxy.cpp:614-727 | The cached channel that each of the twelve extreme targets looks at is the channel of the target note. |
| Retargeting.ChannelsTellNotes | src/proxy.cpp:614-727 | Two cached channels differ if and only if the target notes differ. |
| Retargeting.ConservedInjective | src/proxy.cpp:402-465 | Conservation makes channels tell notes apart. |
| ProxyClass.Proxy.constructor | src/proxy.cpp:239-311 | A new proxy is in the initial state of the model and has emitted nothing. |
| ProxyClass.Proxy.ResetAvailableChannels | src/proxy.cpp:328-338 | In spite of the wrapping byte counter the ring holds the member channels of either zone in order. |
| ProxyClass.Proxy.ResetOutdatedTargetsIfChanged | src/proxy.cpp:614-727 | Comparing cached channels sends just the events that comparing target notes asks for. |
| ProxyClass.Proxy.PushResetsForNewNote | src/proxy.cpp:557-611 | The resets around a note-on, rule by rule, are those of the model; `SetUpBlockIs` says which. |
| ProxyClass.Proxy.PushNoteOn | src/proxy.cpp:468-534 | Stacks, tables, statistics and emitted events after starting a note are those of the model; `StartNoteMeans` says which events. |
| ProxyClass.Proxy.PushNoteOff | src/proxy.cpp:805-850 | The same for stopping a note, also one that has just been popped. |
| ProxyClass.Proxy.PushResetsForNoteOff | src/proxy.cpp:853-884 | The resets after a note-off are those of the model. |
| ProxyClass.Proxy.HandleNoteOff | src/proxy.cpp:1149-1159 | A released note's channel goes to the end of the free ones, and the ring is never full. |
| ProxyClass.Proxy.ProcessDeferredNoteOffs | src/proxy.cpp:1090-1097 | The loop releases every deferred note, latest first, and ends, provided the list pops just these notes. |
| ProxyClass.Proxy.NoteOn | src/proxy.cpp:402-465 | State, links and events of a note-on are those of the model, which `NoteOnSends` describes, and the object stays consistent. |
| ProxyClass.Proxy.StealNote | src/proxy.cpp:434-455 | The switch over steal modes finds the model's victim in the cached extremes. |
| ProxyClass.Proxy.NoteOff | src/proxy.cpp:1123-1146 | State, links and events of a note-off are those of the model, which `NoteOffSends` describes. |
| ProxyClass.Proxy.ProcessControllerEvent | src/proxy.cpp:921-1087 | State and events of a controller event are those of the model, which `ControlSends` describes, learning and pedal included. |
| ProxyClass.Proxy.CollectTargets | src/proxy.cpp:955-1058 | The switch over targets collects the model's target channels. |
| ProxyClass.Proxy.ControlChange | src/proxy.cpp:1162-1185 | A control change is routed unless suspended, repeated or out of range. |
| ProxyClass.Proxy.ChannelPressure | src/proxy.cpp:899-918 | The same for channel pressure. |
| ProxyClass.Proxy.PitchWheelChange | src/proxy.cpp:1188-1207 | The same for the pitch wheel. |
| ProxyClass.Proxy.IsRepeatedMessage | src/proxy.cpp:1100-1120 | A message counts as repeated exactly when the last one of its controller had the same time and value. |
| ProxyClass.Proxy.StopEachNote | src/proxy.cpp:1469-1478 | The bound of 127 iterations never cuts the loop short: all notes are stopped. |
| ProxyClass.Proxy.StopAllNotes | src/proxy.cpp:1460-1486 | All notes are stopped, all stacks empty, the pedal up. |
| ProxyClass.Proxy.ResetRulesAndGlobalControllers | src/proxy.cpp:1516-1536 | Every rule's last input is its initial value, and global targets have been reset. |
| ProxyClass.Proxy.UpdateZoneConfig | src/proxy.cpp:1412-1457 | Reports a change exactly when the configured zone is another one, and then restarts in it; `BlockEnters` says which zone that is. |
| ProxyClass.Proxy.Reset | src/proxy.cpp:1399-1409 | Restarts in the configured zone, whether or not it has changed. |
| ProxyClass.Proxy.Resume | src/proxy.cpp:383-387 | Wakes up and restarts. |
| ProxyClass.Proxy.HandleSetParam | src/proxy.cpp:1356-1367 | Changes one parameter and nothing else. |
| ProxyClass.Proxy.HandleClear | src/proxy.cpp:1376-1390 | Sets every parameter to its default ratio. |
| ProxyClass.Proxy.ProcessMessages | src/proxy.cpp:1306-1353 | The waiting messages are answered in order: parameters are set or cleared. |
| ProxyClass.Proxy.BeginProcessing | src/proxy.cpp:1539-1554 | Answers the messages, also while suspended, then enters a changed zone and forgets pending events unless a reset has just produced them. |
| ProxyClass.Proxy.BeginBlock | src/proxy.cpp:1543-1553 | The part after the messages, for a host that sets parameters by separate calls. |
| ProxyHost.Perform | src/proxy.cpp:377-1554 | Any call on the class, unless it would walk through a damaged list, does what the model says and is answered as `Answers` describes; after a block or resuming the zone is the one of the settings. |
| ProxyHost.PerformEach | src/proxy.cpp:377-1554 | From power-on through any safe run, the class is in the state of the model and has emitted its events. |
| ProxyHost.PerformAll | src/proxy.cpp:377-1554 | In safe runs everything the class has emitted is the answers to the calls in turn, and paired, also in velocity from any call on from which velocities are overridden; exactly its active notes sound; ring and first stack together hold each member channel once. |
| ProxyRuns.StopNotePaired | src/proxy.cpp:805-850 | A stopped note's note-off matches its note-on in channel, pitch and, with override, velocity. |
| ProxyRuns.StartNotePaired | src/proxy.cpp:468-534 | A started note's note-on comes on a silent channel. |
| ProxyRuns.ApplyKeeps | src/proxy.cpp:377-1554 | Every call keeps the invariant. |
| ProxyRuns.ApplyFollows | src/proxy.cpp:377-1554 | Every call keeps the stream paired and in step with the active notes. |
| ProxyRuns.RestartFollows | src/proxy.cpp:1399-1457 | After a restart every earlier note-on has had its note-off. |
| ProxyRuns.RunFollows | src/proxy.cpp:377-1554 | Pairing over whole runs from any consistent state, with matching velocities while release override is on. |
| ProxyRuns.EveryRunIsPaired | src/proxy.cpp:377-1554 | In the stream of the model, whatever is played from power-on, note-ons and note-offs alternate on every channel and agree in pitch, and in velocity for each call that starts with override; in the end exactly the active notes sound. |
| ProxyRuns.VelocitiesMatchWhileOverridden | src/proxy.cpp:805-850 | While every call starts with override, every note-off carries the velocity of its note-on, whatever was played before. |
| ProxyRuns.VelocitiesMatchOnceOverridden | src/proxy.cpp:805-850 | Switching Z1ORV on is enough for that, until it is set again. |
| ProxyRuns.EveryRunConservesChannels | src/proxy.cpp:377-1554 | After any run of the model each member channel is free or sounds one note, never both and never twice, and counts add up to the zone's channels. |
| ProxyRouting.TargetNoteIsTarget | src/proxy.cpp:955-1058 | The extreme target is the one active note on its side that is lowest, highest, oldest or newest there. |
| ProxyRouting.TargetsAreTargets | src/proxy.cpp:955-1058 | A rule reaches the manager channel, or exactly the channels of its target notes, each once. |
| ProxyRouting.RuleSendsOncePerTarget | src/proxy.cpp:948-1069 | A matched rule sends one event with its distorted value to each target channel, and nothing if it has no output. |
| ProxyRouting.UnmatchedGoesToManager | src/proxy.cpp:1071-1087 | An unmatched event goes to the manager channel once, unchanged. |
| ProxyRouting.RetargetSendsOnce | src/proxy.cpp:614-727 | Exactly one event goes to a note that is the target among some notes and not among the others, and none if there is no such note. |
| ProxyRouting.LearnedMeans | src/proxy.cpp:937-946 | A rule waiting to learn takes the controller over and no rule changes otherwise. |
| ProxyRouting.NotedMeans | src/proxy.cpp:937-949 | Exactly the listening rules remember the value, and afterwards they all listen to this controller. |
| ProxyRouting.StartNoteHeard | src/proxy.cpp:468-534 | Around a note-on, events go to the manager, to sounding channels, or as set-up to the channel of the new note. |
| ProxyRouting.StopNoteHeard | src/proxy.cpp:805-850 | After a note-off, resets go to channels that still sound. |
| ProxyRouting.OldThenNewZone | src/proxy.cpp:1399-1457 | The events of a call are those sent in the zone it finds, then those sent in the zone it enters. |
| ProxyRouting.CallsAreHeard | src/proxy.cpp:377-1554 | A call sends no controller event to a silent member channel, except as set-up of a note it starts, if and only if it does not restart with configuration messages on and fifteen member channels. |
| ProxyRouting.EveryRunIsHeard | src/proxy.cpp:377-1554 | The same equivalence over every run from power-on. |
| ProxyRouting.AnnouncingReachesAMember | src/proxy.cpp:1489-1512 | The exception occurs: configuration messages on in the default zone, then resuming. |
| ProxyRouting.StopAllIsHeard | src/proxy.cpp:1460-1486 | Nor does stopping all notes. |
| ProxyProperties.ListStaysIntact | src/note_stack.cpp:237-264 | An intact list of deferred notes stays intact exactly if the call stops no note whose left-over link points behind the head; a restart repairs any list. |
| ProxyProperties.CleanRunsAreSafe | src/proxy.cpp:402-1159 | Runs in which no call does that never release the pedal over a damaged list. |
| ProxyProperties.HeldRunsAreSafe | src/proxy.cpp:1077-1097 | Nor do runs that never lift the pedal. |
| ProxyProperties.ReleasedTwice | src/proxy.cpp:402-1159 | Eleven calls after which the list of a new proxy would release one of two deferred notes twice. |
| ProxyProperties.TameIsClean | src/proxy.cpp:805-850 | With pedal handling off, or on with excess notes ignored, no call damages the list. |
| ProxyProperties.TameRunsAreClean | src/proxy.cpp:402-1159 | So it is over every run that keeps these settings. |
| ProxyProperties.StealingReplacesVictim | src/proxy.cpp:427-465 | Without a free channel the active set becomes active minus victim plus note, the victim is the extreme one, and the note takes its channel. |
| ProxyProperties.IgnoringChangesNothing | src/proxy.cpp:402-465 | When excess notes are ignored, they and repeated notes change nothing and send nothing. |
| ProxyProperties.ChannelsAreStable | src/proxy.cpp:402-1159 | No call moves a sounding note to another channel. |
| ProxyProperties.ReleaseDeferredVoices | src/proxy.cpp:1090-1097 | Releasing the pedal takes out exactly the deferred notes and frees exactly their channels, in order. |
| ProxyProperties.ReleaseDeferredSends | src/proxy.cpp:1090-1097 | It sends one note-off per deferred note, with the recorded or overridden velocity. |
| ProxyProperties.PedalRefines | src/proxy.cpp:1077-1159 | At every call the deferred notes are the active ones released since they started, with their last velocity. |
| ProxyProperties.PedalRefinesRuns | src/proxy.cpp:1077-1159 | Over whole runs too, and nothing is deferred while the pedal is up. |
| ProxyProperties.ResumeSilences | src/proxy.cpp:383-387 | After resuming nothing sounds in the stream or the state, and every member channel is free in order. |
| ProxyProperties.BlockEntersZone | src/proxy.cpp:1412-1457 | So it is after the first block with another zone; other blocks do nothing. |
| ChannelOrder.CallMoves | src/proxy.cpp:402-465 | Read off the emitted notes, every call takes channels from the front of the free ones and returns them to the end. |
| ChannelOrder.RunMoves | src/queue.cpp:44-77 | Over a run without restarts, free channels plus returned ones are the taken ones plus those free in the end. |
| ChannelOrder.ReuseIsFair | src/proxy.cpp:461-464 | A returned channel is not taken before all that were free at that moment and all returned earlier. |
| ProxyCalls.ResetsAre | src/proxy.cpp:185-215 | A rule resets for a note unless resets are off or its target is global or on the other side; group targets and `RST_LAST` take the last input, the others the initial value. |
| ProxyCalls.MovedIs | src/proxy.cpp:614-727 | The comparison behind the resets sends one message to the note that a rule's target has moved to, if there is one. |
| ProxyCalls.SetUpBlockIs | src/proxy.cpp:557-611 | What one rule sends around a note-on: to the note it has lost as a target, to the manager if that stood in for notes, to the new note. |
| ProxyCalls.StartNoteMeans | src/proxy.cpp:468-543 | A started note sends the set-up of all rules in order, the note-on with transposed pitch and given velocity, and the set-up again. |
| ProxyCalls.StopNoteMeans | src/proxy.cpp:805-884 | A stopped note sends its note-off, and then for each rule in order one message to the note that has become the target. |
| ProxyCalls.NoteOnSends | src/proxy.cpp:402-534 | The full answer to a note-on, with the channel it takes and the note it replaces, in every case. |
| ProxyCalls.NewChannelIsSetUp | src/proxy.cpp:557-611 | A fresh note's channel gets exactly one message per resetting rule with an output before the note-on, marked as set-up, and one after it, in the order of the rules. |
| ProxyCalls.NoteOffSends | src/proxy.cpp:1123-1159 | The full answer to a note-off: the note stops, or the pedal keeps it back with its velocity, or nothing happens. |
| ProxyCalls.ReleaseVelocityIsSent | src/proxy.cpp:805-821 | An ordinary note-off carries the velocity given, or with override that of the note-on. |
| ProxyControllers.TargetsAreReached | src/proxy.cpp:955-1058 | A rule reaches the manager channel for a global target or as a fallback, otherwise the channels of its targets, newest first. |
| ProxyControllers.RuleRoutes | src/proxy.cpp:934-1069 | A rule that takes a controller sends its output with the distorted value once to each channel it reaches; other rules send nothing. |
| ProxyControllers.ReleaseParts | src/proxy.cpp:1090-1097 | Lifting the pedal stops the deferred notes one after the other, with the events of each. |
| ProxyControllers.ControlSends | src/proxy.cpp:921-1097 | The full answer to a controller event: what the rules that take it send, and nothing else, or the event itself to the manager if none does; then the notes the pedal has kept back. The pedal is down from 0.5 on. |
| ProxyResets.ConfiguredIsDescribed | src/proxy.cpp:1412-1441 | The configured zone is the one that type, size, anchor and transpositions describe, and its channels lie in a row next to the manager. |
| ProxyResets.ResumeEnters | src/proxy.cpp:1399-1457 | Resuming enters that zone with all its channels free in a row and every last input at its initial value. |
| ProxyResets.BlockEnters | src/proxy.cpp:1412-1457 | So does a block exactly when it is another zone; otherwise the block does nothing. |
| ProxyResets.PowerOnZone | src/proxy.cpp:239-311 | A new proxy is in the full lower zone with channels 1 to 15 free in order, split at note 60 and not transposed. |
| ProxyResets.PitchFollowsSettings | src/proxy.cpp:535-543 | In the zone of the settings, a note is transposed by Z1TRA - 48 from the anchor on and by Z1TRB - 48 below, within 0 to 127. |
| ProxyResets.RestartSends | src/proxy.cpp:1460-1536 | The full answer to a restart: pedals lifted, every note stopped with the newest first, both zones configured if that is on, global rules at their initial values. |
| ProxyResets.SuspendedIsDeaf | src/proxy.cpp:377-387 | While suspended, no sequence of calls sends or changes anything but settings. |
| ProxyResets.RepeatsAreIgnored | src/proxy.cpp:1100-1120 | The next message of a controller is ignored exactly if time and value are those of the one before. |
| ProxyAnswers.ApplyAnswers | src/proxy.cpp:377-1554 | Every call is answered as described. |
| ProxyAnswers.RunAnswers | src/proxy.cpp:377-1554 | Everything sent in a run is the answers to its calls in turn. |
| SpscQueues.PushLoadedKeeps | src/spscqueue.cpp:73-82 | A push refuses its item exactly when it finds the ring full. |
| SpscQueues.PopLoadedKeeps | src/spscqueue.cpp:101-108 | A pop comes back empty-handed exactly when it finds the ring empty, and never within `process_messages`. |
| SpscQueues.ProducerMeasuringKeeps | src/spscqueue.cpp:52-62 | The length the producer computes is an upper bound by the time it has it. |
| SpscQueues.ConsumerMeasuringKeeps | src/spscqueue.cpp:52-62 | The length the consumer computes is exact when it is computed, hence a lower bound afterwards. |
| SpscQueues.StepKeeps | src/spscqueue.cpp:52-118 | Every atomic step of either thread keeps the ring's invariant. |
| SpscQueues.NoSlotIsShared | src/spscqueue.cpp:84-113 | The threads never touch the same slot at the same time. |
| SpscQueues.StepRefinesQueue | src/spscqueue.cpp:73-118 | Every step leaves the queue alone, appends one pushed item, or hands its first item over. |
| SpscQueues.EveryRunIsFifo | src/spscqueue.cpp:73-118 | For every interleaving, popped items are a prefix of pushed ones, at most the requested capacity is held, and slots are not shared. |
| SpscQueues.CountsDown | src/proxy.cpp:1306-1317 | Within `process_messages` the number of pops still to do falls by one with each item delivered. |
| SpscQueues.ProcessMessagesDrains | src/proxy.cpp:1306-1317 | When it is through, all messages that were there at its start have been delivered in order. |
| SpscQueues.SpscQueue.constructor | src/spscqueue.cpp:31-41 | A new ring is empty and has one slot more than its capacity. |
| SpscQueues.SpscQueue.RunProducer | src/spscqueue.cpp:73-88 | Each access of `push` to the shared array and indices is the step of the same name in the protocol. |
| SpscQueues.SpscQueue.RunConsumer | src/spscqueue.cpp:101-118 | Each access of `pop` is a step of the protocol. |
| MidiDispatcher.FeedAllConcat | src/midi.hpp:394-409 | The automaton can be fed in pieces. |
| MidiDispatcher.SkipRemainingDataBytes | src/midi.hpp:701-711 | Skips exactly the data bytes up to the next status byte or the end. |
| MidiDispatcher.DispatchEvent | src/midi.hpp:413-482 | One call consumes between one and all bytes and calls the handler as the automaton does on them; only a message cut short is lost. |
| MidiDispatcher.DispatchEvents | src/midi.hpp:394-409 | The whole buffer is consumed, with the automaton's calls and running status. |
| MidiDispatcher.SplittingIsSafe | src/midi.hpp:394-482 | Dispatching two buffers equals dispatching them joined if the second is empty or starts with a status byte, or the first does not end within a message. |
| MidiDispatcher.SafeCuts | src/midi.hpp:394-482 | A stream can be cut at a place whatever follows if and only if that is not after the first data byte of a two-byte message. |
| MidiDispatcher.PrintedMessagesAreDispatched | src/midi.hpp:413-711 | Printed channel messages are read back one call each, whichever repeated status bytes were left out. |
| MidiDispatcher.CallsDetermineMessages | src/midi.hpp:500-661 | The call determines the message, except that a note-on without velocity is a note-off with 64; channel-mode calls are the controllers from 0x78. |
| MidiDispatcher.WheelSurvives | src/proxy.cpp:773-776 | A 14-bit wheel position survives being split into two bytes and read back. |
| Lines.ParseLines | src/serializer.cpp:149-192 | One pass gives the non-empty lines, each cut off after MAX_SIZE - 1 characters. |
| Lines.LinesFromSplits | src/serializer.cpp:149-192 | The pass with its truncating flag equals splitting at line breaks first and cutting off afterwards. |
| Lines.SplitJoin | src/serializer.cpp:149-192 | Lines that were joined with line ends come back from splitting. |
| Parsing.SkippingReachesTheEnd | src/serializer.cpp:387-412 | Skips whitespace and comments, and reports exactly whether nothing is left. |
| Parsing.ParseSectionName | src/serializer.cpp:293-338 | Accepts exactly the heads of sections, and keeps enough of the name to recognise ours. |
| Parsing.ParseParamName | src/serializer.cpp:415-434 | Accepts names of one to six characters that something follows, in capitals. |
| Parsing.ParseLineUntilValue | src/serializer.cpp:341-352 | Splits a line at its equal sign, or rejects it. |
| ProgramTexts.SanitizedIsClean | src/bank.cpp:64-92 | Sanitised names have only allowed characters and no space at either end. |
| ProgramTexts.SanitizingKeepsTheRest | src/bank.cpp:64-92 | Sanitising takes out the characters that are not allowed and the spaces at both ends, and nothing else. |
| ProgramTexts.CleanIsSanitized | src/bank.cpp:64-92 | Sanitising is idempotent; only an empty name becomes the default one. |
| ProgramTexts.TruncatedIsClean | src/bank.cpp:95-122 | A truncated clean name is clean, shorter than the limit, and has the same short form as the full one. |
| ProgramTexts.ImportedIsWellFormed | src/bank.cpp:206-261 | Importing any lines leaves clean names and only parameter lines. |
| BankTexts.NameLineSays | src/bank.cpp:233-246 | The printed name line is no head, and says the name if it is readable and nothing otherwise. |
| BankTexts.LineUntilValue | src/serializer.cpp:341-352 | A printed parameter line is no head and splits into name and value. |
| BankTexts.ImportOwnLines | src/bank.cpp:206-261 | A program's own lines restore it and leave the lines of the next one. |
| BankTexts.RestoredMeans | src/bank.cpp:132-142 | With a readable name the name, short name and text come back; otherwise the target's default name is taken. |
| BankTexts.BankRoundTrip | src/bank.cpp:349-409 | Importing a bank's text into any bank restores all 128 parameter texts, and a name exactly when it is readable or equals the target's default. |
| Banks.Program.constructor | src/bank.cpp:36-45 | Default name, imported text and name are applied in this order. |
| Banks.Program.SetName | src/bank.cpp:48-61 | Name and short name are the truncated sanitised name, and the text follows. |
| Banks.Program.SanitizeName | src/bank.cpp:64-92 | The character loops compute the sanitised name or the default name. |
| Banks.Program.Update | src/bank.cpp:132-142 | The text is the head, the name and the parameters, and the parameters stay. |
| Banks.Program.IsBlank | src/bank.cpp:173-176 | True exactly when there are no parameter lines. |
| Banks.Program.ReadSection | src/bank.cpp:206-245 | The loop with its flags finds our section, its last name and its parameter lines, and stops at the next head. |
| Banks.Program.ImportLines | src/bank.cpp:197-261 | Imports one section and leaves the iterator at the next one. |
| Banks.Bank.constructor | src/bank.cpp:285-294 | The built-in programs first, then empty ones with numbered names. |
| Banks.Bank.Import | src/bank.cpp:349-363 | The programs are imported one after the other and the rest become empty ones. |
| Banks.Bank.Serialize | src/bank.cpp:389-409 | The text of the bank is that of its programs in order. |
| Banks.Transfer | src/bank.cpp:349-409 | A bank object's text imported into another: all parameters arrive, a name exactly when it is readable or the default name there, and a program with a readable name character by character. |
| Decimals.NumeralDenotes | src/serializer.cpp:58-66 | A printed ratio denotes what it was printed from. |
| Decimals.TrimmingKeepsNumber | src/serializer.cpp:77-119 | Trimming zeros keeps the number denoted. |
| Decimals.TrimExcessZerosFromEnd | src/serializer.cpp:77-119 | In place, all but one of the zeros at the end are cut off if there is a dot, and nothing else changes. |
| Settings.NamesAreDifferent | src/proxy.cpp:239-311 | No two parameters have the same name. |
| Settings.LookupFinds | src/proxy.cpp:1245-1248 | Looking a parameter's name up finds that parameter. |
| Settings.QuantizedIsNear | src/serializer.cpp:58-66 | Fifteen places change a ratio by less than 1e-15. |
| Settings.SettingLineIsRead | src/serializer.cpp:355-384 | A written line sets the parameter it was written for to the ratio written. |
| Settings.SettingsTextLines | src/serializer.cpp:38-74 | Reading written settings gives one message per parameter that deviates from its default, in order. |
| Settings.SettingsRoundTrip | src/serializer.cpp:38-273 | Importing written settings into any proxy restores what was written and sets everything else to its default, all within the threshold. |
| Settings.DecimalSettingsRoundTrip | src/serializer.cpp:38-273 | Ratios of at most fifteen places that are written come back exactly; no ratio is off by more than 0.000001. |
| Settings.ValuesRoundTrip | src/serializer.cpp:38-273 | A parameter set by value keeps its value exactly. |
| Serializers.Serialize | src/serializer.cpp:38-74 | The loop writes one trimmed line per deviating parameter. |
| Serializers.ParseNumber | src/serializer.cpp:451-484 | Reads digits with at most one dot, rejects a second dot and an empty number, and clamps to the unit interval. |
| Serializers.ProcessLine | src/serializer.cpp:355-384 | Adds the message of a well-formed line for a known parameter, and nothing otherwise. |
| Serializers.ReadMessages | src/serializer.cpp:237-273 | Only lines within our sections count. |
| Serializers.ImportSettings | src/serializer.cpp:130-146 | The proxy's parameters become those of the text over cleared ones, and nothing else changes. |

## Left out

- ProxyClass.Proxy.ProcessControllerEvent: a release of the pedal requires that popping the list gives just the deferred notes; what it would do with notes that are popped twice, to stacks and ring that no longer hold them, is not modelled.
- ProxyClass.Proxy.ControlChange: requires the same when it lifts the pedal.
- ProxyHost.PerformAll: requires the same of every lifting of the pedal in the run; the model itself has no such requirement.
- ProxyClass.Proxy.NoteOn: notes are at most 127, as MIDI data bytes are; so are those of `NoteOff`.
- ProxyClass.Proxy.PushNoteOff: takes the note out of the deferred notes before the resets are sent, where the original does it afterwards; the resets do not look at the deferred notes.
- Keyboards.Keyboard.Add: the three stacks, the anchor and the statistics are grouped in one object; in the original they are fields of the proxy, passed and cached as here.
- Per-note tables, parameters, rules, previous messages and pending events are values in fields that the methods reassign, not objects of their own.
- SpscQueues.StepKeeps: atomics are sequentially consistent, which is what plain `load` and `store` give; weaker orders are not modelled.
- Distortion.InitPolynomialTables: the tables with `tanh` and `log` are parameters of the proxy, of which monotonicity and range only are assumed where they matter.
- Numbers are reals: rounding of IEEE doubles is not modelled, except for the quantisation to 7 and 14 bits and to fifteen decimal places.
- Decimals.Print: stands for `snprintf` of a text that fits; formatting rounds to the nearest numeral, halves to even.
- Serializers.ImportSettings: the path through the audio thread; in the GUI thread the same messages go through the lock-free ring.
- Settings.Lookup: a search over the names in place of the hash table, whose hash overflows `int`.
- Banks.Bank.Import: `import_names`, the current program and the conversion of a program index to a parameter are routine and left out.
- Banks.Bank.constructor: the texts of the built-in programs are a parameter.
- The dirty flag, the counters of voices and channels, the atomic copies of ratios, time offsets in samples and the debug output.
- The graphical interface, the VST 3 and FST wrappers, the vendored SDKs, the display strings and the scripts.
