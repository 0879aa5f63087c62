# Monokulo: verified models of its browser apps and tooling

This project models the parts of Monokulo whose state or arithmetic is hardest to get
right, and proves what they promise: the POS terminal's session timeline and order
store, the engine page's round drawing, timeline window and chain strip, the walk that
finds a page's preloads, the dates of the test timings, the stand-in Clover's OAuth
tokens, the recording proxy's HTTP messages, and two small codecs.

`dafny verify dfyconfig.toml` checks everything.

## How it is laid out

| file | what it holds |
|---|---|
| `PosTimeline.dfy` | the POS session timeline: its atomic steps, and the class that performs them in place |
| `PosTimelineSafety.dfy` | its invariant, kept by every step |
| `PosTimelineRuns.dfy` | what every run keeps: each event accounted for, none delivered twice, draining |
| `PosTimelineBeacons.dfy` | what it loses without a word: exactly what beacons carried |
| `PosTimelineDrops.dfy` | what it says of dropped events, and exactly when that is how many were lost |
| `PosTimelineLimits.dfy` | where its promise that a reload loses nothing ends, exactly |
| `PosTimelineRepeats.dfy` | exactly when a reload has something acknowledged again |
| `PosTimelineAnswers.dfy` | what is recorded, when something is sent, and what each answer does, in plain numbers |
| `OrderStore.dfy`, `OrderStoreSafety.dfy` | the POS order store, and what reads racing live events keep |
| `OrderStoreDetails.dfy` | whose value of each property is shown, and the order of the list |
| `RoundDrawing.dfy`, `RoundConservation.dfy` | the drawing of a round, and that it loses no time |
| `RoundSegments.dfy` | which units make which segment, and what its drawing shows of each |
| `ImportClosure.dfy` | the preload walk over a manifest that may have cycles |
| `CivilTime.dfy`, `Decimal.dfy` | seconds to a civil date, against a calendar that goes day by day |
| `TokenMachine.dfy`, `TokenCodes.dfy` | single-use codes and refresh tokens, capped per merchant, and exactly when each is granted |
| `HttpMessages.dfy`, `HttpRoundTrip.dfy`, `Hex.dfy` | the HTTP/1.1 reader and writers, and that reading undoes writing |
| `HttpHeads.dfy` | the reader on heads the proxy did not write, and what it refuses |
| `TimelineWindow.dfy` | the window over the engine page's timeline |
| `StripLayout.dfy` | label levels and visible blocks of the chain strip |
| `Base64.dfy`, `SupportText.dfy` | base64, HTML escaping and %XX decoding |

Code that updates state in place is a class or a method with loops; its contract ties
the new state to a function of the old one, and the lemmas are about that function, over
every input and every run. Clocks, the network, storage that may fail, and random tokens
are parameters of the steps.

## What was found

Where a promise turned out not to hold of the code, the code is modelled as it is; a
concrete input shows the failure, and a lemma says exactly when the promise holds.

- The timeline promises that no event is lost in silence. A beacon's events leave the
  queue once the browser has queued it, and the store's answer is never heard, though
  the store may refuse them, for its limit on batches a minute, say
  (`BeaconUnheard`). In every run whose reloads find the state saved, the events gone
  with nothing heard of them are those in a batch handed to a beacon the browser queued,
  and no others (`SilentExactly`).
- The timeline says how many events a full queue dropped, and that need not be how many
  were lost. Too few are told when the report is itself dropped, refused or forgotten
  (`ReportItselfDropped`), and no one knows when it was handed to a beacon; too many when
  an event dropped while a fetch carried it is accepted after all
  (`DeliveredToldAsLost`). The count known to be told, or still to be, is right if and
  only if the drops never told of, or only to a beacon, are as many as those acknowledged
  after all (`DropsToldExactly`). `StepHides` says what each step adds to each; a run has
  none of any, at any step, if and only if no step of it pushes out, refuses, forgets or
  abandons the last hope of a report, hands one to a beacon, or has a dropped event
  accepted (`ToldRightThroughout`).
- The timeline promises that a reload loses nothing. A queued event is kept if and only if
  there is a saved copy, made when the event had been recorded (`ReloadKeepsExactly`):
  one recorded after storage last obeyed is lost with nothing counted (`UnsavedIsLost`),
  and with storage blocked the whole session is (`BlockedStorageLosesAll`).
- A saved copy that is out of date makes a reload give out numbers again, if and only if
  the copy's count is behind the page's (`ReusesNumberExactly`), and the store ignores a
  number it has seen (`StaleCopyReusesNumber`). It can also have a number acknowledged
  twice (`AckedTwiceRun`): that can follow if and only if some acknowledged number is past
  the copy's count, or queued in the copy and not the one that its report of drops is
  about to push out (`AckedAgainExactly`).
- Sending an order to the background upserts a copy taken before the request, and can
  take a live status back within the same second (`BackgroundTakesBack`, a run). A property
  that has changed meanwhile is kept if and only if the copy is the older by its stamp
  (`BackgroundTakesBackExactly`), and no other stamps make it safe (`StampsSafeExactly`).
  Runs in which each copy put back is older, or in which nothing came for the order while
  its request was out, keep what reads and events promise (`LiveStaysLive`).
- The preload walk tells chunks apart by file. It misses nothing, whatever imports what,
  for an entry or an island, if and only if no two chunks share a file, or all do
  (`NeverMissesExactly`).
- A window set over nearly the whole history but ending before now reaches now without
  being kept as following it (`FollowsNowExactly`); the page can get there
  (`ReachesNowUnfollowed`), and also when the history shrinks under a window
  (`ShrunkUnfollowed`). `UnfollowedExactly` says when, after any operations.
- The times of the timings are written as RFC 3339 has them up to the year 9999, and no
  longer (`Rfc3339Exactly`).
- The chain strip draws overlapping blocks on both sides of its cut when it is over five
  cells longer than the chain and the lowest cursor is at the chain's start
  (`AscendingExactly`, `ShortChainOverlaps`).
- The %XX decoder, documented to leave anything else alone, also reads `%+4` as a byte
  (`UnquotedExactly`, `PlusDecoded`).

## Model

| member | source | states |
|---|---|---|
| PosTimeline.Cleaned | apps/pos/src/timeline.ts:71-73 | A detail is kept without its undefined and null entries, and no others are lost. |
| PosTimeline.Timeline.constructor | apps/pos/src/timeline.ts:41-62 | A page opens on the saved session if there is one, otherwise on a new, empty one, with no fetch out. |
| PosTimeline.Timeline.Push | apps/pos/src/timeline.ts:74-81 | An event takes the next number and joins the queue; past 500 the oldest leaves and is counted; the result is saved. |
| PosTimeline.Timeline.Record | apps/pos/src/timeline.ts:69-82 | Recording does nothing once stopped, and otherwise pushes the cleaned event. |
| PosTimeline.Timeline.NextBatch | apps/pos/src/timeline.ts:84-93 | Drops not yet told become a report first; the batch is then the first 50 events after the given number. |
| PosTimeline.Timeline.MarkSent | apps/pos/src/timeline.ts:95-99 | Exactly the batch's events leave the queue, and the result is saved. |
| PosTimeline.Timeline.Flush | apps/pos/src/timeline.ts:101-111 | A fetch sets off only when allowed to, with the next batch, and notes the last number it carries. |
| PosTimeline.Timeline.Answer | apps/pos/src/timeline.ts:113-124 | Each status does what the source gives it: accepted, paused, stopped and forgotten, refused for good, or nothing. |
| PosTimeline.Timeline.Resolve | apps/pos/src/timeline.ts:112-129 | The rest of a flush: whatever the answer, no fetch is out after it, and an accepted batch with more waiting sets off the next. |
| PosTimeline.Timeline.Beacon | apps/pos/src/timeline.ts:131-142 | A beacon takes the next events after those a fetch carries, and takes them off the queue if the browser queued it, no answer being heard. |
| PosTimelineAnswers.RecordedSays | apps/pos/src/timeline.ts:69-82 | The event recorded is the newest queued, with the next number and what was given, but for an empty order id and for undefined and null details. |
| PosTimelineAnswers.FetchSetsOff | apps/pos/src/timeline.ts:101-106 | A flush sends exactly if something is queued, no fetch is out, the page is online, and it was neither stopped nor is paused. |
| PosTimelineAnswers.BeaconSetsOff | apps/pos/src/timeline.ts:135-137 | A beacon changes anything only if something is queued, the page is online, beacons are there, and it was neither stopped nor is paused. |
| PosTimelineAnswers.AnswerDoes | apps/pos/src/timeline.ts:112-126 | Status by status, what is off the queue, acknowledged, refused, stopped, saved and paused after an answer. |
| PosTimelineAnswers.StoppedStays | apps/pos/src/timeline.ts:118-122 | Once stopped, a page does nothing more. |
| PosTimelineAnswers.PausesFor | apps/pos/src/timeline.ts:114-117 | After a 429, however the page goes on until another or a reload, nothing is sent for as many seconds as Retry-After says, or 60, and from then on a flush sends. |
| PosTimelineSafety.NextKeeps | apps/pos/src/timeline.ts:69-142 | Every step keeps the whole invariant: conservation, leaving once to be delivered, queue order and bound, one fetch at a time, drops counted. |
| PosTimelineSafety.NextBatchIs | apps/pos/src/timeline.ts:86-97 | The batch after a number is the queue's next stretch, shares nothing with the fetch's, and marking it sent removes just that stretch. |
| PosTimelineSafety.CarriedGoes | apps/pos/src/timeline.ts:95-113 | What a fetch carried and is still queued is the front of the queue, so an accepted fetch leaves exactly the events behind it. |
| PosTimelineRuns.WorkingRunKeeps | apps/pos/src/timeline.ts:41-142 | With working storage the saved copy is the page's state after every step of every run, and reloads keep the invariant. |
| PosTimelineRuns.PageLifeKeeps | apps/pos/src/timeline.ts:69-142 | Within one page life the invariant holds however storage behaves. |
| PosTimelineRuns.RunHolds | apps/pos/src/timeline.ts:41-142 | The invariant holds in every run in which each reload finds the page's state saved, whatever storage does in between. |
| PosTimelineRuns.NoSilentLoss | apps/pos/src/timeline.ts:9-16 | In every run whose reloads find the state saved, each event recorded is queued unaltered, acknowledged, handed to a beacon, refused, dropped, or forgotten at a stop; drops equal the count plus all reports, and none is left untold when the queue empties. |
| PosTimelineRuns.NoDoubleAcknowledgement | apps/pos/src/timeline.ts:101-142 | In every run whose reloads find the state saved, no event leaves twice to be delivered, acknowledged or handed to a beacon, or is refused too, or is still queued or carried. |
| PosTimelineRuns.QueueInOrder | apps/pos/src/timeline.ts:69-111 | In every run whose reloads find the state saved, the queue is in order and within its bound, and a fetch carries exactly the oldest events, at most 50. |
| PosTimelineRuns.BeaconOvertakes | apps/pos/src/timeline.ts:131-138 | In every run whose reloads find the state saved, a beacon's batch is disjoint from the batch a fetch is carrying. |
| PosTimelineRuns.ReloadLosesNothing | apps/pos/src/timeline.ts:8-12 | With working storage a reload at any step of any run keeps the queue, the count and the drops. |
| PosTimelineRuns.ReloadSendsAgain | apps/pos/src/timeline.ts:41-50 | What a fetch carried at a reload is at the queue's front or was dropped from it; the next fetch takes what is queued of it, but for an oldest event a report pushes out of a full queue. |
| PosTimelineRuns.DrainShrinks | apps/pos/src/timeline.ts:127-128 | Each accepted answer of a drain leaves strictly fewer events, though reporting a drop may add one. |
| PosTimelineRuns.Drains | apps/pos/src/timeline.ts:101-129 | From any state such a run can reach with a fetch out, any twelve accepting answers, each when it may come and with storage as it may be, leave the queue empty and no drop untold. |
| PosTimelineBeacons.StepHands | apps/pos/src/timeline.ts:135-142 | Only a beacon step hands events over, and exactly its batch. |
| PosTimelineBeacons.SilentExactly | apps/pos/src/timeline.ts:135-142 | In every run whose reloads find the state saved, an event left with nothing heard of it (not queued, acknowledged, refused, dropped or forgotten) if and only if it was in a batch handed to a beacon the browser queued. |
| PosTimelineBeacons.BeaconUnheard | apps/pos/src/timeline.ts:140 | A run, with working storage, in which an event leaves the page with nothing heard of it and nothing counted. |
| PosTimelineDrops.DropsToldExactly | apps/pos/src/timeline.ts:15-16 | In every run whose reloads find the state saved, the drops heard of, those told only to a beacon, those that may yet be told and those never to be make up all drops; what is or may be heard is the number lost if and only if the drops never heard of, or only by a beacon, are as many as the drops acknowledged after all. |
| PosTimelineDrops.StepHides | apps/pos/src/timeline.ts:69-142 | Each step's part: the drops never heard of grow by what the reports say among the numbers it pushes out uncarried, refuses, forgets or stops carrying unqueued; those in doubt by what they say in the batch a beacon takes; and drops are acknowledged after all by an accepted batch with dropped events. |
| PosTimelineDrops.DroppedWhileCarried | apps/pos/src/timeline.ts:76-80 | A fetch comes to carry a dropped event exactly when one more is recorded on a full queue whose oldest it carries. |
| PosTimelineDrops.ToldRightThroughout | apps/pos/src/timeline.ts:69-142 | Such a run never hides a drop from the store, leaves one in doubt or overcounts one if and only if no step loses a report, hands one to a beacon or has a dropped event accepted. |
| PosTimelineDrops.ReportItselfDropped | apps/pos/src/timeline.ts:15-16 | A run, with working storage, in which fewer are told as lost than were lost, a report having been dropped. |
| PosTimelineDrops.DeliveredToldAsLost | apps/pos/src/timeline.ts:15-16 | A run, with working storage, in which more are told as lost than were lost, a dropped event having been accepted. |
| PosTimelineLimits.ReloadKeepsExactly | apps/pos/src/timeline.ts:41-67 | After every such run, whatever storage has done since the page opened, a queued event is queued after a reload if and only if there is a copy whose count reaches it. |
| PosTimelineLimits.UnsavedIsLost | apps/pos/src/timeline.ts:8-12 | A run in which an event recorded when storage no longer obeyed is gone after a reload, unaccounted for. |
| PosTimelineLimits.BlockedStorageLosesAll | apps/pos/src/timeline.ts:41-50 | A run with storage blocked: the reload begins another session, with nothing queued. |
| PosTimelineLimits.ReusesNumberExactly | apps/pos/src/timeline.ts:41-50 | A reload gives out a number already given if and only if the saved count is behind the page's. |
| PosTimelineLimits.StaleCopyReusesNumber | apps/pos/src/timeline.ts:64-67 | A run in which an event recorded after a reload takes the number of an acknowledged one. |
| PosTimelineRepeats.AckedAgainExactly | apps/pos/src/timeline.ts:41-67 | After every such run, a reload can be followed by a second acknowledgement of a number if and only if some acknowledged number is past the copy's count, or queued in it and not what its report of drops pushes out. |
| PosTimelineRepeats.AckedTwiceRun | apps/pos/src/timeline.ts:64-67 | A run in which an event whose acknowledgement was not saved is sent again after a reload and acknowledged again. |
| OrderStore.Orders.UpdateOrders | apps/pos/src/main.tsx:394-420 | Every change of the list adds the open ids to those seen and notes, now, each newly final order that was seen open. |
| OrderStore.Orders.NoteFinished | apps/pos/src/main.tsx:413-419 | Exactly the final orders seen open and not yet noted get the time, and no other entry changes. |
| OrderStore.Orders.Upsert | apps/pos/src/main.tsx:421-424 | A known order is merged in place, an unknown one put first. |
| OrderStore.Orders.OnStatus | apps/pos/src/main.tsx:490-496 | A status event raises its order's revision and is merged into it. |
| OrderStore.Orders.LoadDone | apps/pos/src/main.tsx:449-455 | A read of one order is merged by the revision captured before its request. |
| OrderStore.Orders.RefreshDone | apps/pos/src/main.tsx:428-438 | A read of the open orders leaves those, each over the known one, then the rest; and names the open ones it lacks. |
| OrderStore.Orders.BackgroundDone | apps/pos/src/main.tsx:541-547 | The copy, marked as backgrounded, is upserted. |
| OrderStoreSafety.MergeTwice | apps/pos/src/main.tsx:379-382 | Merging is idempotent: what came of a merge, merged again, changes nothing. |
| OrderStoreSafety.MergeAgain | apps/pos/src/main.tsx:379-393 | Merging what a read made of an order into it again changes nothing, so a load's second merge is harmless. |
| OrderStoreSafety.LateReadKeeps | apps/pos/src/main.tsx:383-393 | A read that began at another revision leaves every live property as it was. |
| OrderStoreSafety.RefreshedAt | apps/pos/src/main.tsx:434-437 | A refreshed list has exactly the ids known and read, each once, and each order read over or untouched. |
| OrderStoreDetails.TimesDecide | apps/pos/src/main.tsx:379-382 | A merge changes nothing exactly if the other copy has the earlier time. |
| OrderStoreDetails.NewerShows | apps/pos/src/main.tsx:381 | A merge with a copy that is not older shows the QR brought or else the known one, the refund address brought, null too, and any other property brought. |
| OrderStoreDetails.LateReadShows | apps/pos/src/main.tsx:383-393 | A read that began before the newest event leaves the eight live properties and a known QR, and fills in a missing one. |
| OrderStoreDetails.QrStays | apps/pos/src/main.tsx:379-455 | In every run, an order that shows a QR shows one ever after. |
| OrderStoreDetails.QrFillsIn | apps/pos/src/main.tsx:379-455 | In every run, an event or read not older than what is shown, bringing a QR to an order showing none, has it shown. |
| OrderStoreDetails.UpsertOrder | apps/pos/src/main.tsx:421-424 | Merging moves no order; a new one comes first, as it is. |
| OrderStoreDetails.RefreshOrder | apps/pos/src/main.tsx:434-437 | A refresh leaves the orders read, in that order, and then the others in theirs; one not known shows as read. |
| OrderStoreDetails.GoneSays | apps/pos/src/main.tsx:433 | Gone are the orders shown, not ended, that the read does not name. |
| OrderStoreSafety.BeganAfter | apps/pos/src/main.tsx:369-372 | A read whose revision is still current began after every status event of its order. |
| OrderStoreSafety.LiveStaysLive | apps/pos/src/main.tsx:369-455 | In every interleaving, once an event was applied each live property it brought shows a value brought by it, by a later event that was applied, or by a read that began after it and took effect; backgrounding included, while each copy put back is older or nothing came meanwhile. |
| OrderStoreSafety.NoOrderLost | apps/pos/src/main.tsx:396-455 | In every run orders are never lost and never doubled. |
| OrderStoreSafety.RefreshLeavesAll | apps/pos/src/main.tsx:425-437 | In every run a refresh leaves exactly the old ids and the ids read. |
| OrderStoreSafety.FinishedOnce | apps/pos/src/main.tsx:349-354 | In every run each final order seen open has a finishing time, only orders seen open have one, and a time noted never changes. |
| OrderStoreSafety.SeenOpenExactly | apps/pos/src/main.tsx:412 | An order is among those seen open if and only if it was open after some action of the run. |
| OrderStoreSafety.FinishedExactly | apps/pos/src/main.tsx:413-419 | An order has a finishing time if and only if it has been open and then final; the time is that of the first action after which it was. |
| OrderStoreSafety.BackgroundTakesBackExactly | apps/pos/src/main.tsx:541-547 | In every run a live property that has changed since the copy was taken is kept if and only if the copy is older by its stamp; otherwise the copy's value shows again. |
| OrderStoreSafety.StampsSafeExactly | apps/pos/src/main.tsx:379-382 | Two stamps alone make putting a copy back safe, whatever the order, if and only if the copy's is the older. |
| OrderStoreSafety.BackgroundTakesBack | apps/pos/src/main.tsx:541-547 | A run in which an order paid while its request was out, in the second its copy was taken, shows as pending again. |
| RoundDrawing.Shapes | apps/engine/src/present.ts:433-463 | The shapes of pieces in time order, built by extending or adding to the last. |
| RoundDrawing.Segments | apps/engine/src/present.ts:484-506 | A tier's segments: runs of units with later work, the ones that took no time left out where one took some. |
| RoundDrawing.LabelBars | apps/engine/src/present.ts:507-536 | The bars with the time carried on to each label that has room. |
| RoundDrawing.MarkLast | apps/engine/src/present.ts:575-582 | The end marker is on the bar that ends last, the latest to start of those, the last drawn of those; none when there is no bar. |
| RoundDrawing.RoundView | apps/engine/src/present.ts:539-592 | A round's lanes in tier order, its scale and how far it has got. |
| RoundConservation.ShapesTile | apps/engine/src/present.ts:433-463 | A segment's shapes cover it from first start to last end with no gap or overlap; fills add up to the units' time; nothing is drawn as two that could be one. |
| RoundConservation.BoxesMeet | apps/engine/src/present.ts:145-150 | Neighbouring shapes of a segment are drawn as one run exactly when neither is a thread. |
| RoundConservation.LanesAddUp | apps/engine/src/present.ts:540-556 | The lanes' times add up to how far the round has got. |
| RoundConservation.GroupedLaid | apps/engine/src/present.ts:488-503 | Segments are sequential, each starts after a gap, and their time is the lane's. |
| RoundSegments.SegmentsSplit | apps/engine/src/present.ts:484-503 | For all units, the segments are their pieces in order; one begins at the first unit and at each unit, never at work, not starting where the segment before ends. |
| RoundSegments.SplitOneWay | apps/engine/src/present.ts:484-503 | There is only one such splitting. |
| RoundSegments.NamesApart | apps/engine/src/present.ts:465-476 | Work is counted apart by kind, units using the remaining budget together, other units by tier. |
| RoundSegments.PartsRight | apps/engine/src/present.ts:498-502 | Each segment counts its own units, by operation, how often and how long. |
| RoundSegments.KeptOnly | apps/engine/src/present.ts:504-506 | Where some segment took time those that did are kept, otherwise just the first. |
| RoundSegments.ThreadsAreGaps | apps/engine/src/present.ts:449-458 | The threads drawn are the gaps before work of at least 2.5% of the scale, with a band under 5%. |
| RoundSegments.EachPieceShown | apps/engine/src/present.ts:440-458 | Each unit lies in a filled box of its pass, and each piece of work in an outlined one. |
| RoundSegments.BarsLabelled | apps/engine/src/present.ts:507-534 | A bar is labelled exactly if it is last or 8% of the scale follows it, and is of work alone exactly if no unit is in it. |
| RoundSegments.ScaleSays | apps/engine/src/present.ts:541-544 | The scale is the budget or the time over it, or the time and 15%, at least ten milliseconds. |
| RoundSegments.EndMarkerSays | apps/engine/src/present.ts:575-582 | The end marker is on the bar that every other comes before, by its end, then its start, then its place, and nothing else changes. |
| RoundConservation.OperationsAddUp | apps/engine/src/present.ts:489-502 | Each operation's time over the segments is its time over the lane's units. |
| RoundConservation.KeptKeeps | apps/engine/src/present.ts:504-506 | Leaving out what took no time loses no time and keeps the order, and never the last segment. |
| RoundConservation.LabelsPartition | apps/engine/src/present.ts:508-534 | Every bar is in exactly one label: each label says the time of the bars since the label before it, and the last bar has one. |
| RoundConservation.LaneDrawn | apps/engine/src/present.ts:484-556 | For units back to back, bars lie in order with gaps inside the scale, each tiled by its shapes, and bars and labels each add up to the lane. |
| RoundConservation.OneEndMarker | apps/engine/src/present.ts:575-582 | Once a round has a unit exactly one bar is marked last, and no bar finished after it. |
| ImportClosure.Walk.Imports | crates/monokulo/build.rs:197-211 | The recursive walk, ending on any graph, fills the shared list as the depth-first visit does. |
| ImportClosure.Row | crates/monokulo/build.rs:213-216 | A row's files are the visit of its chunk's imports, from what was seeded. |
| ImportClosure.VisitSound | crates/monokulo/build.rs:198-211 | Nothing is listed that wasn't seeded or isn't needed, and nothing twice. |
| ImportClosure.RowIsClosure | crates/monokulo/build.rs:186-233 | With a file for each chunk, a row lists exactly the seeded file and the files of every chunk one or more imports away, each once. |
| ImportClosure.ForkMisses | crates/monokulo/build.rs:206-209 | With two chunks sharing a file, a graph on which the walk misses a needed file, seeded or not. |
| ImportClosure.NeverMissesExactly | crates/monokulo/build.rs:198-211 | A naming of files under which the walk misses nothing on any graph, for an entry's row or an island's, is one with no two chunks alike, or all alike. |
| CivilTime.CivilSteps | xtask/src/timings.rs:258-268 | The date of the next day is the calendar's next day, and every date is valid. |
| CivilTime.CivilIsCalendar | xtask/src/timings.rs:258-268 | For every count of days the arithmetic gives the date the proleptic Gregorian calendar reaches from 1970-01-01, a day at a time. |
| CivilTime.DayNumberOfCivil | xtask/src/timings.rs:258-268 | Counting days by months and years from 1970 to the date of a day gives that day back. |
| CivilTime.UtcReadsBack | xtask/src/timings.rs:256-275 | The text of every time reads back as that very second, however long its year. |
| CivilTime.Rfc3339Exactly | xtask/src/timings.rs:256-275 | The text is a date and time of section 5.6 of RFC 3339, each field in its range, and says that second, if and only if the time is before the year 10000; only then is it 25 characters long. |
| TokenMachine.Clover.IssueTokens | tools/fake-clover/fake_clover.py:116-129 | New tokens join the merchant's list, and the oldest past the cap leave it and die. |
| TokenMachine.Clover.Token | tools/fake-clover/fake_clover.py:368-378 | A code is used up even by a wrong request, and granted only with its client and challenge, and no secret. |
| TokenMachine.Clover.Refresh | tools/fake-clover/fake_clover.py:380-389 | A refresh token is granted only while live and unexpired, and is spent and off its list before new ones are issued. |
| TokenMachine.Clover.Authorize | tools/fake-clover/fake_clover.py:291-302 | A code is held for a merchant there is. |
| TokenMachine.Clover.ExpireAccess | tools/fake-clover/fake_clover.py:467-471 | Every access token expires, and nothing else changes. |
| TokenMachine.Clover.RevokeAll | tools/fake-clover/fake_clover.py:472-479 | Every token of the merchant dies, and its list empties. |
| TokenMachine.RemovalFinds | tools/fake-clover/fake_clover.py:385-387 | A token that is accepted is on its merchant's list once, so removing it succeeds and removes just it. |
| TokenMachine.ListsAreLive | tools/fake-clover/fake_clover.py:82-82 | In every run a merchant's list is exactly its live refresh tokens, each once, oldest first, at most the cap. |
| TokenMachine.ExchangedOnce | tools/fake-clover/fake_clover.py:380-389 | In every run each refresh token is exchanged at most once. |
| TokenCodes.GrantedExactly | tools/fake-clover/fake_clover.py:368-378 | In every run a code is granted exactly if it was approved for its client and challenge, and neither used by any request, granted or not, nor approved anew since. |
| TokenCodes.CodeUsedOnce | tools/fake-clover/fake_clover.py:372 | A request uses its code up whether or not it is granted: no later one is, unless the code was approved again. |
| TokenCodes.ExchangedExactly | tools/fake-clover/fake_clover.py:380-389 | In every run a refresh token is exchanged exactly if the client is named, it was given less than a year before, and it is on its merchant's list. |
| TokenCodes.GrantGives | tools/fake-clover/fake_clover.py:116-129 | An access token for half an hour and a refresh token for a year, of that merchant, and no other access token changes. |
| TokenCodes.GrantKeepsNewest | tools/fake-clover/fake_clover.py:122-127 | The list is the merchant's newest tokens, as many as the cap allows. |
| TokenCodes.GrantKillsOldest | tools/fake-clover/fake_clover.py:122-127 | The tokens that leave the list die, and no others change. |
| TokenCodes.RevokeDoes | tools/fake-clover/fake_clover.py:472-479 | Every token of the merchant expires and its refresh tokens die, its list empties, and every other merchant's are as they were. |
| TokenCodes.ExpireDoes | tools/fake-clover/fake_clover.py:467-471 | No access token is good at that time, and nothing else changes. |
| TokenMachine.ListsExist | tools/fake-clover/fake_clover.py:298-302 | In every run a request in order finds its merchant's list. |
| HttpMessages.Reader.ReadLine | xtask/src/recording.rs:60-68 | A line up to and with its line feed, or all that is left. |
| HttpMessages.Reader.ReadMessage | xtask/src/recording.rs:56-110 | One message read, errors and the ended stream included, with the reader left after it. |
| HttpMessages.Reader.ReadHeaders | xtask/src/recording.rs:64-84 | Headers to the empty line: length, coding and content type by name in any case, others passed over. |
| HttpMessages.Reader.ReadBodyOf | xtask/src/recording.rs:85-104 | A body by its chunks, else by its length, else to the end, else none. |
| HttpMessages.Reader.ReadAllChunks | xtask/src/recording.rs:86-98 | Chunks by their hexadecimal sizes until an empty one, joined. |
| HttpRoundTrip.ForwardedReads | xtask/src/recording.rs:112-127 | A request as forwarded reads back as the very request, with the reader left at what follows. |
| HttpRoundTrip.ServedReads | xtask/src/recording.rs:160-171 | An answer as served reads back with its status under HTTP/1.1, its content type and its body. |
| HttpRoundTrip.ServedAllReads | xtask/src/recording.rs:138-173 | All the answers served on one connection read back, in order and no more. |
| HttpRoundTrip.ChunkedReads | xtask/src/recording.rs:86-98 | A message in the chunked coding of section 7.1 of RFC 9112 reads back as its chunks joined, however cut. |
| HttpHeads.BareReads | xtask/src/recording.rs:85-104 | A head with neither length nor coding has no body on a connection that goes on, what follows being left, and all that follows on one that ends. |
| HttpHeads.AllSentRead | xtask/src/recording.rs:138-141 | All the requests a client sends on one connection, without a body, with a length or in chunks, read back in order and no more. |
| HttpHeads.HeadersRead | xtask/src/recording.rs:64-84 | Any headers in any order and case, spaced as they like, with others among them, read as what each says in turn; the first wrong length stops it. |
| HttpHeads.AnyHeadReads | xtask/src/recording.rs:56-110 | With any headers the body is by its chunks, else by its length, else by the connection, short ones refused. |
| HttpHeads.LengthsRead | xtask/src/recording.rs:77-79 | A decimal length that fits a machine word is read, with a plus or not. |
| HttpHeads.LengthsRefused | xtask/src/recording.rs:77-79 | A length that is empty, a sign alone, or has any other character is refused. |
| HttpHeads.SizesRead | xtask/src/recording.rs:88-91 | A chunk's size is read in hexadecimal of either case, with spaces before it and an extension after it. |
| HttpHeads.SizesRefused | xtask/src/recording.rs:88-91 | A size that begins with no digit is refused. |
| HttpHeads.ChunkCutShort | xtask/src/recording.rs:92-93 | A stream that ends within a chunk is short. |
| HttpHeads.StatusSays | xtask/src/recording.rs:160-161 | The status is what follows the first space, or 200 OK when there is none. |
| HttpRoundTrip.ReadIsPlain | xtask/src/recording.rs:105-109 | Whatever is read is fit to be forwarded: first line and content type within a line and trimmed. |
| HttpRoundTrip.RelayKeepsRequest | xtask/src/recording.rs:138-142 | A request read off a client, however written, is read by the node as the same request. |
| HttpRoundTrip.RelayKeepsAnswer | xtask/src/recording.rs:142-171 | An answer read off the node, chunked or not, reaches the client with the same content type and body. |
| TimelineWindow.Timeline.ReadAxisEnd | apps/engine/src/engine-view.tsx:505-509 | The bar ends at now while live, and off live where it was frozen or the playback position has got. |
| TimelineWindow.Timeline.ReadWindowSpan | apps/engine/src/engine-view.tsx:512-522 | The window in engine milliseconds, from what is kept of it. |
| TimelineWindow.Timeline.SetWindow | apps/engine/src/engine-view.tsx:523-529 | A window is set with its snaps to now and to the whole history. |
| TimelineWindow.Timeline.ContainPlayhead | apps/engine/src/engine-view.tsx:530-535 | The window moves only when the moment is outside it. |
| TimelineWindow.Timeline.MoveWindow | apps/engine/src/engine-view.tsx:687-694 | The window is moved by its middle or one end. |
| TimelineWindow.WindowInRange | apps/engine/src/engine-view.tsx:516-529 | After any operations the window lies in the range, as long as its span or the whole range, and never under the least span. |
| TimelineWindow.ContainsPlayhead | apps/engine/src/engine-view.tsx:530-535 | Bringing any moment of the range into the window leaves it inside, the length kept but for the snap to the whole history. |
| TimelineWindow.MoveKeepsLength | apps/engine/src/engine-view.tsx:687-691 | Moving the window keeps its length and puts its end where wanted, but for the snaps. |
| TimelineWindow.ResizeKeepsOtherEnd | apps/engine/src/engine-view.tsx:687-694 | Dragging one end leaves the other within the snap of where it was, and the window no shorter than the least span. |
| TimelineWindow.DraggedEndMoves | apps/engine/src/engine-view.tsx:687-694 | Dragging the window or one end of it puts it just where it is dragged, clear of the snaps. |
| TimelineWindow.DraggedEndStops | apps/engine/src/engine-view.tsx:687-694 | An end dragged past the other stops five seconds from it, and one dragged past the range stops there. |
| TimelineWindow.ContainedAt | apps/engine/src/engine-view.tsx:530-535 | A moment brought in from before the window is a fifth along it, one from after it four fifths, clear of the ends and snaps. |
| TimelineWindow.SettingSays | apps/engine/src/engine-view.tsx:523-529 | A window within a quarter of a second of all there is is all of it, one ending as near now follows now, and otherwise it is as asked, five seconds at least. |
| TimelineWindow.SpanSays | apps/engine/src/engine-view.tsx:516-522 | It is drawn as long as it was set or all there is, ending where it was set as far as it can. |
| TimelineWindow.RangeSays | apps/engine/src/engine-view.tsx:510-515 | The range is the history held, at most half an hour of it, or a minute when none is known, and five seconds at least. |
| TimelineWindow.EdgeSays | apps/engine/src/engine-view.tsx:505-509 | The edge is now while live; off live it stays, moved on by the playback position, and never goes back. |
| TimelineWindow.FollowsNowExactly | apps/engine/src/engine-view.tsx:482-490 | A window set to reach now follows now, except exactly when it ends before now and covers nearly the whole range. |
| TimelineWindow.ReachesNowUnfollowed | apps/engine/src/engine-view.tsx:523-535 | From the page's opening, operations that leave the window reaching now, over the whole range, without following it. |
| TimelineWindow.UnfollowedExactly | apps/engine/src/engine-view.tsx:516-529 | After any operations the window reaches now unfollowed if and only if it is kept with an end and has to cover the range or ends past it. |
| TimelineWindow.ShrunkUnfollowed | apps/engine/src/engine-view.tsx:512-522 | A window over the past that covers all of the history left, now included, when that shrinks. |
| StripLayout.StackLabels | apps/engine/src/layout.ts:46-63 | Labels on a level are clear of each other, each is in the way of one on every lower level, and every level is used. |
| StripLayout.StackedOneWay | apps/engine/src/layout.ts:46-50 | There is only one such stacking. |
| StripLayout.StackedApart | apps/engine/src/layout.ts:46-63 | Labels on one level are four pixels clear of each other. |
| StripLayout.StackedLow | apps/engine/src/layout.ts:46-63 | A label is kept off a lower level only by one it would be less than four pixels clear of. |
| StripLayout.VisibleBlocks | apps/engine/src/layout.ts:28-44 | The blocks pushed one by one, whole or around the cut. |
| StripLayout.BlocksFit | apps/engine/src/layout.ts:25-44 | The blocks fit the cells with the cut as three, end at the block to come, and from 20 cells show the lowest cursor. |
| StripLayout.HeightsDrawn | apps/engine/src/layout.ts:28-44 | Exactly which heights are drawn: the latest, or with one cut the block below the lowest cursor to five above it and the latest. |
| StripLayout.RightSays | apps/engine/src/layout.ts:30 | The last block is the one after the tip or the highest got to, whichever is higher. |
| StripLayout.LowestSays | apps/engine/src/layout.ts:31-33 | The lowest cursor is rounded down to a multiple of five, and is no higher than the highest got to. |
| StripLayout.AscendingExactly | apps/engine/src/layout.ts:33-43 | Blocks are in order and each once if and only if the strip is narrow, or the lowest cursor is above the start, or the chain is long enough. |
| StripLayout.ShortChainOverlaps | apps/engine/src/layout.ts:33-43 | On a new chain 20 cells draw heights below zero and blocks twice. |
| Base64.Base64 | xtask/src/snp.rs:78-96 | The encoder by groups of three bytes, with padding. |
| Base64.EncodeLength | xtask/src/snp.rs:81-81 | Four characters for every three bytes or part of three. |
| Base64.DecodeUndoes | xtask/src/snp.rs:78-96 | The decoder of section 4 of RFC 4648 undoes the encoder, for every sequence of bytes. |
| Base64.EncodeUndoes | xtask/src/snp.rs:78-96 | Only what the encoder writes is decoded. |
| SupportText.EscapeIsMap | xtask/src/support.rs:168-174 | The five passes are one map, character by character. |
| SupportText.EscapeUndone | xtask/src/support.rs:168-174 | Escaped text reads back as the text. |
| SupportText.EscapedIsInert | xtask/src/support.rs:168-174 | Escaped text has no angle bracket or quote, and every ampersand begins an entity. |
| SupportText.Unquote | xtask/src/support.rs:176-194 | The decoding loop, escape by escape. |
| SupportText.HexDigitSays | xtask/src/support.rs:176-190 | A byte counts as a hexadecimal digit of section 2.1 of RFC 3986 exactly if it is one, in either case. |
| SupportText.UnquoteUndoes | xtask/src/support.rs:176-194 | Decoding undoes quoting, whatever is quoted besides the percent sign, with digits of either case. |
| SupportText.UnquotedExactly | xtask/src/support.rs:176-190 | The decoder does as documented if and only if no percent sign is followed by a plus and a digit. |
| SupportText.PlusDecoded | xtask/src/support.rs:176-190 | The decoder reads `%+4` as the byte 4. |

## Left out

- PosTimeline.Timeline.constructor: a stored text that isn't a session's JSON is taken as no stored session, and a timeline that isn't enabled, which does nothing, is not modelled.
- PosTimeline.Timeline.Answer: Retry-After is a whole number of seconds or absent.
- PosTimelineRuns.NoSilentLoss: what the store does with a batch is not modelled beyond its answer; an event sent in a fetch whose answer never came may have reached it, and is sent again and told apart by its number there.
- PosTimelineDrops.DropsToldExactly: what the store is told of counts acknowledged reports; one that got there in a fetch whose answer never came is not counted until it is sent again.
- The pages' own recordings (`watchPage`, the requests and order changes main.tsx records) and `routeOf`: callers of `record`.
- OrderStoreSafety.LiveStaysLive: promised only while each copy put back is up to date, as the source's own copies need not be; what else happens is BackgroundTakesBackExactly.
- OrderStoreSafety.NoOrderLost: the ids of one read of the open orders are distinct, and a read of one order answers with that order.
- The order store's views, keypad, payment screens and stream reconnection: user interface over the list modelled here.
- RoundDrawing.RoundView: titles, outcome chips, reserved shares and the wording of times; labels are amounts, and shares of the scale are compared by cross-multiplication where the source divides floating-point numbers.
- RoundConservation.LaneDrawn: the round's units are back to back from its start, as the source's own comment has them.
- ImportClosure.Row: reading the manifest and writing the rows; every import names a chunk of the manifest, without which the build stops.
- HttpMessages.Reader.ReadMessage: heads are ASCII (a line that isn't UTF-8 stops the source's reader, and Unicode spaces are trimmed there), a chunk too long for memory is read as a short stream, and trailers are not read, as in the source.
- Sockets, threads and the recording file around `forward` and `serve`.
- TokenMachine.Clover.Token: the verifier's SHA-256 challenge is a parameter, random tokens are assumed never seen before, and the cap is not negative.
- The rest of the stand-in Clover: tenders, orders, payments, refunds and webhooks.
- TimelineWindow.WindowInRange: real arithmetic stands for floating-point milliseconds.
- The engine page's marks, playback, seeking and drawing on the canvas.
- Base64.Base64: shifts and ors of the 24-bit group are written as arithmetic, its places not overlapping.
- SupportText.Unquote: bytes in and bytes out; replacing what isn't UTF-8 at the end is not modelled.
- Whole source files that drive processes, browsers, databases or report pages, and the engine's own crates.
