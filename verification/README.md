# QOpenHD: verified models of its queue, its traffic store and its command tool

Three parts of QOpenHD keep invariants worth proving, and this project models and proves them in Dafny 4.11.

**The bounded blocking queue** (`app/common/ThreadsafeQueue.hpp`). Any finite set of threads calls `try_enqueue`
and `wait_dequeue_timed`; a step is one thread's work between two points where another thread can see a
difference (taking the mutex, the work under it, releasing it, notifying, returning), and waiters may wake
unasked or time out at any moment. `QueueProtocol` is the step system, `QueueProofs` what every reachable state
satisfies, `QueueTimeouts` when a call gives up: no wake-up is lost although the mutex is released before
`notify_one`, the replies are those of a sequential bounded FIFO applied at an instant inside each call and in
the order of calls that do not overlap, nothing is lost or reordered, and there is no deadlock.
`ThreadsafeQueues` is the class, cut at the same points, each piece proved to be its step, so that every state
of an object is a reachable one. The capacity is compared as the code compares it: an `int` converted to a
64-bit `size_t`, so a negative capacity is one of 2^64 plus itself (`ConvertedCapacity`).

**The ADS-B traffic store** (`app/adsb`). `AdsbVehicles` is one aircraft and the merge of a report into it;
`ListModelSpec`, `ListModelProofs`, `DirtyProofs` and `QmlObjectListModels` are the observable list with its row
notices, its resets and its dirty tracking, with `DirtyNotices` for what is told of it; `AdsbStore` and
`AdsbStoreProofs` say what the display list, the address map and the indicator are as functions of the history
of reports and cleanup ticks; `AdsbVehicleManagers` is the manager over the real objects: it keeps the history
of the slots it ran as a ghost field, and its invariant is that list, map, timer and indicator are what that
history says; `AdsbFeeds` is what the two JSON loops let through. The classes `ADSBVehicle`,
`QmlObjectListModel` and `ADSBVehicleManager` carry the source's fields, and the address map and the list share
the vehicle objects.

**The command tool** (`integration/openhd_mavlink_tool.cpp`). `Endpoints` is the stripping of the global
options, `OptionParsing` the option loops, `Decimals` and `ParamEncoding` the numbers and the fixed-width
fields, `ParamSending`, `SetLink`, `SetUart` and `SetWifi` the messages attempted and the exit codes.

Where the code does not do what its comments or names suggest, the code is modelled and the exact condition is
proved: a batch inserted before the end of the list is announced one row too early
(`AgreementKeptIffAnnounced`); an aircraft is listed as it should be exactly if no clear ever found it alive,
and otherwise never again (`ListedIff`), its next report reaching a deleted object (`DanglesIff`); the announced
count goes stale exactly when a list of another length is put in under an outside reset (`CountKeptIff`); the
connections to children follow the list exactly while insertions bring in new objects and `clear`,
`swapObjectList` and `setData` leave the objects that can signal as they were (`TrackedKeptIff`), and with
duplicates dirt still shows exactly while no removed row leaves its object in another and nothing unconnected,
or dirty under a clean model, is put in (`DirtShowsKeptIff`); `setDirty(false)` on a clean model cleans nothing
(`CleaningReachesAllIff`); a report without a position is placed at 0, 0 (`AbsentPositionIsZero`); a tick before
the first report reads a timer that was never started (`TickRaisesIff`); global options anywhere but in front
make the tool drop the wrong arguments (`StripsRightIffInFront`) or leave it without a command
(`NoCommandLeftIff`); `TRACKER_UART_OUT` does not fit its field (`OnlyTrackerDeviceIsCut`).

Conventions. Doubles are reals or NaN. A flag word is the set of its bit numbers. Each Qt slot is one instant.
`QList::insert` takes an index past an end for that end and `QList::removeAt` ignores one outside the list, as
in Qt 5. The elements of a list model are of any type; what their meta-object offers is a function of the
element, and which of them are dirty is kept beside the list. The optional locals of a command handler are one
map from option to value. `dafny verify dfyconfig.toml` checks everything.

## Model

| member | source | states |
|---|---|---|
| QueueProofs.WaitersAreOwedNothing | app/common/ThreadsafeQueue.hpp:20-49 | In every reachable state with a sleeping, un-notified consumer, the queue is no longer than the number of threads that will still act on it: with the mutex free, producers between unlock and notify plus woken consumers not yet holding the mutex; so with none of those the queue is empty |
| QueueProofs.RepliesAreTheFifos | app/common/ThreadsafeQueue.hpp:20-49 | Whatever the interleaving, the history of effects is one of a sequential bounded FIFO whose content is the queue, every thread acts in the order call, effect, return, and the length stays within the capacity, a negative one counting as 2^64 plus itself |
| QueueProofs.EffectInsideCall | app/common/ThreadsafeQueue.hpp:20-49 | Every return was preceded by its call and, between the two, by exactly one effect with the same answer |
| QueueProofs.RealTimeOrder | app/common/ThreadsafeQueue.hpp:20-49 | A call that returned before another was made took effect before it, whether or not the other has returned |
| QueueProofs.ConvertedCapacity | app/common/ThreadsafeQueue.hpp:22 | The queue is full exactly from the capacity on, or from 2^64 plus the capacity on if that is negative |
| QueueProofs.ReplyTellsTheQueue | app/common/ThreadsafeQueue.hpp:21-49 | At the instant of its effect an enqueue is refused exactly if the queue is full, and a dequeue yields nothing exactly if it is empty and otherwise the oldest element |
| QueueTimeouts.NothingOnlyAfterTimeout | app/common/ThreadsafeQueue.hpp:33-45 | wait_dequeue_timed answers with nothing only when its time is up: between the call and that effect, some step ends the thread's wait by its timeout or by a notification that came too late |
| QueueTimeouts.LateNeverWaits | app/common/ThreadsafeQueue.hpp:39-49 | A thread whose time is up never waits again in that call: until it returns it is on its way out, with an element or without |
| QueueTimeouts.NotifyWakesOne | app/common/ThreadsafeQueue.hpp:27 | A notification wakes one waiter if there is one, and no other |
| QueueProofs.Conservation | app/common/ThreadsafeQueue.hpp:25-48 | In every reachable state the accepted elements, in order, are the delivered ones followed by the queue |
| QueueProofs.StuckMeansNothingToDo | app/common/ThreadsafeQueue.hpp:20-50 | No deadlock: when no thread has a step of its own, each is idle or waiting, and one waits only on an empty queue |
| QueueProofs.TakersNeverFindItEmpty | app/common/ThreadsafeQueue.hpp:34-48 | In every reachable state a thread about to take the front has something to take, as the assertion of line 46 says |
| QueueProofs.StepKeepsInv | app/common/ThreadsafeQueue.hpp:20-50 | Every step keeps mutual exclusion, the non-empty queue of takers, the wake-up balance, the order of each call, the FIFO history, the bound, and a history of known threads only |
| QueueProofs.RunKeepsInv | app/common/ThreadsafeQueue.hpp:20-50 | So does every run |
| QueueProofs.AdvanceBalance | app/common/ThreadsafeQueue.hpp:22-49 | A step of one thread lengthens the queue only by turning that thread into one that owes a wake-up, and a thread blocks only on an empty queue |
| ThreadsafeQueues.ThreadsafeQueue.EnqueueLocked | app/common/ThreadsafeQueue.hpp:22-25 | Refuses exactly if full, otherwise appends the element, and is the step of the protocol |
| ThreadsafeQueues.ThreadsafeQueue.Unlock | app/common/ThreadsafeQueue.hpp:26 | Releases the mutex before the notification, leaving the queue alone |
| ThreadsafeQueues.ThreadsafeQueue.NotifyOne | app/common/ThreadsafeQueue.hpp:27-28 | Wakes one waiter if there is one, whichever it is |
| ThreadsafeQueues.ThreadsafeQueue.FirstLook | app/common/ThreadsafeQueue.hpp:33-40 | Goes on to take if the queue is not empty, and otherwise to a wait whose time is not up |
| ThreadsafeQueues.ThreadsafeQueue.TestPredicate | app/common/ThreadsafeQueue.hpp:39-45 | With the mutex held, takes if the queue is not empty, gives up with nothing if the time is up, and otherwise waits and releases the mutex |
| ThreadsafeQueues.ThreadsafeQueue.WakeUnasked | app/common/ThreadsafeQueue.hpp:39-41 | A timeout or a wake-up without notification is the step of the protocol |
| ThreadsafeQueues.ThreadsafeQueue.TakeFront | app/common/ThreadsafeQueue.hpp:34-49 | The old queue is the element taken followed by the new queue; the assertion of line 46 holds |
| ThreadsafeQueues.ThreadsafeQueue.Lock | app/common/ThreadsafeQueue.hpp:21-33 | Takes the free mutex, for a call or inside the wait |
| ThreadsafeQueues.ThreadsafeQueue.Leave | app/common/ThreadsafeQueue.hpp:20-50 | Returns the answer decided on and no longer holds the mutex |
| AdsbVehicles.ADSBVehicle.Update | app/adsb/adsbvehicle.cpp:25-88 | Merges a report of the same address and restarts the timer, ignores any other; a signal fires exactly if its field changes, or where NaN is reported in a plainly compared double; latitude and longitude are signalled together |
| AdsbVehicles.ADSBVehicle.constructor | app/adsb/adsbvehicle.cpp:15-23 | A new vehicle is the merge of its first report into a blank one |
| AdsbVehicles.ADSBVehicle.HasExpired | app/adsb/adsbvehicle.cpp:90-93 | True exactly if the last accepted report is more than 25000 ms ago |
| AdsbVehicles.LastWriterWins | app/adsb/adsbvehicle.cpp:31-74 | After any sequence of reports each plainly compared field is that of the latest report of the address that carried its bit |
| AdsbVehicles.SharedBit | app/adsb/adsbvehicle.h:29-30 | Last contact and distance have one bit, so they always come from the same report |
| AdsbVehicles.NoDrift | app/adsb/adsbvehicle.cpp:45-56 | After any sequence of reports altitude and heading are within one part in 10^12 of the latest reported value |
| AdsbVehicles.TakenUnlessClose | app/adsb/adsbvehicle.cpp:45-56 | A reported altitude or heading is taken exactly if it differs from the one held by more than one part in 10^12 of either; NaN is close to NaN alone |
| AdsbVehicles.FirstReport | app/adsb/adsbvehicle.cpp:15-88 | A new vehicle shows its first report as it is; a callsign, altitude, heading or alert left out is empty, NaN or 0 |
| AdsbVehicles.OnlySharedBit | app/adsb/adsbvehicle.h:21-31 | The bits are 1 to 8, and last contact and distance are the only two fields with the same |
| AdsbVehicles.AddressSurvivesCast | app/adsb/adsbvehicle.h:62 | An address cast to int and back to an unsigned map key is itself |
| ListModelProofs.AgreementKeptIffAnnounced | app/adsb/qmlobjectlistmodel.cpp:76-235 | With no outside reset open, a view that followed the notices still shows the list after an operation exactly if insertions were announced where they happened: any single insert at a valid index, a batch at the end, or a batch whose last object equals the row it pushed up |
| ListModelProofs.ViewsAgreeIff | app/adsb/qmlobjectlistmodel.cpp:76-300 | Over any run, with any outside resets in it, a view agrees with the list whenever none of them is open exactly if it did at the start and every insertion outside them is announced where it happens |
| ListModelProofs.CountToldIff | app/adsb/qmlobjectlistmodel.cpp:76-300 | Whatever was announced before, after an operation the last countChanged value is the length exactly if the operation announces it or it happens to fit |
| ListModelProofs.CountKeptIff | app/adsb/qmlobjectlistmodel.cpp:98-235 | A right count goes wrong exactly when clear, swapObjectList or clearAndDeleteContents changes the length under an outside reset |
| ListModelProofs.CountIsCurrentIff | app/adsb/qmlobjectlistmodel.cpp:98-300 | Over any run the last countChanged value is the length throughout exactly if it did at the start and no operation does that |
| ListModelProofs.OutsideResetHidesCount | app/adsb/qmlobjectlistmodel.cpp:140-150 | A clear inside an outside reset leaves the announced count at the old length |
| ListModelProofs.BracketsKeptIffAlternating | app/adsb/qmlobjectlistmodel.cpp:274-300 | Begun minus ended resets is 1 while an outside reset is open and 0 otherwise, and an operation keeps this exactly if outside begins and ends alternate |
| ListModelProofs.RunBracketedIff | app/adsb/qmlobjectlistmodel.cpp:140-300 | Over any run this holds throughout exactly if it did at the start and outside resets alternate, whatever is done in between, nested resets included |
| ListModelSpec.RepeatedRemovalIsSlice | app/adsb/qmlobjectlistmodel.cpp:113-117 | Removing n rows one after the other at one position removes that slice |
| ListModelSpec.BatchLandsOneRowLate | app/adsb/qmlobjectlistmodel.cpp:193-206 | A batch inserted at i ends up behind row i, or at the end if i is the length |
| ListModelSpec.InsertLands | app/adsb/qmlobjectlistmodel.cpp:182 | An object inserted at a valid index stands there, past either end at that end |
| DirtyProofs.TrackedKeptIff | app/adsb/qmlobjectlistmodel.cpp:76-264 | The connected children are exactly the listed objects with the signal, once each, and a dirty one among them means a dirty model; every operation keeps this exactly under its condition: insertions of new, distinct, non-null objects; a list or row put in that leaves the objects with the signal as they were; a clear with nothing connected; anything else always |
| DirtyProofs.RunTrackedIff | app/adsb/qmlobjectlistmodel.cpp:76-264 | Over any run it holds throughout exactly if it did at the start and every operation meets its condition |
| DirtyProofs.ClearedStaysConnected | app/adsb/qmlobjectlistmodel.cpp:140-264 | An object cleared out of the list stays connected, and its dirt makes the empty model dirty |
| DirtyProofs.DirtShowsKeptIff | app/adsb/qmlobjectlistmodel.cpp:76-264 | On any list, with duplicates and nulls, every listed object with the signal stays connected and none is dirty under a clean model, exactly if a row removed leaves no second row of its object and a list or row put in was connected already and not dirty under a clean model |
| DirtyProofs.RunDirtShowsIff | app/adsb/qmlobjectlistmodel.cpp:76-264 | Over any run this holds throughout exactly if it did at the start and every operation meets that condition |
| DirtyProofs.CleaningCleans | app/adsb/qmlobjectlistmodel.cpp:242-264 | setDirty(false) leaves a dirty model and all its elements clean despite the signals that come back in |
| DirtyProofs.CleaningReachesAllIff | app/adsb/qmlobjectlistmodel.cpp:242-256 | setDirty(false) leaves all elements clean exactly if the model was dirty or they were clean before |
| DirtyProofs.DirtReachesModelIff | app/adsb/qmlobjectlistmodel.cpp:258-264 | A child becoming dirty dirties a clean model exactly if it is connected and has the signal |
| DirtyNotices.DirtyIs | app/adsb/qmlobjectlistmodel.cpp:152-264 | Insertions and removals leave the model dirty, setDirty(d) leaves it d, a child that newly becomes dirty, is connected and has the signal makes it dirty, and nothing else moves the flag |
| DirtyNotices.ChildDirtyIs | app/adsb/qmlobjectlistmodel.cpp:242-264 | The children's own flags are cleared by setDirty(false) on a dirty model, for the listed objects with the property, and else moved by the child alone |
| DirtyNotices.DirtyStaysTold | app/adsb/qmlobjectlistmodel.cpp:76-264 | After every operation the last dirtyChanged value is the flag, if it was before |
| DirtyNotices.RunStaysTold | app/adsb/qmlobjectlistmodel.cpp:76-300 | So over every run |
| DirtyProofs.DuplicateRowLosesTrack | app/adsb/qmlobjectlistmodel.cpp:152-166 | Removing one row of an object listed twice disconnects the row that stays, whose dirt then no longer reaches the model |
| QmlObjectListModels.QmlObjectListModel.RemoveRows | app/adsb/qmlobjectlistmodel.cpp:103-122 | The loop removes the rows and announces them and the new count |
| QmlObjectListModels.QmlObjectListModel.InsertRows | app/adsb/qmlobjectlistmodel.cpp:87-101 | Announces rows and count without touching the list |
| QmlObjectListModels.QmlObjectListModel.RemoveAt | app/adsb/qmlobjectlistmodel.cpp:152-166 | Returns and removes row i, disconnects its object, announces it and makes the model dirty |
| QmlObjectListModels.QmlObjectListModel.RemoveOne | app/adsb/qmlobjectlistmodel.h:41 | Removes the first row of a listed object, as removeAt does, and no other row |
| QmlObjectListModels.QmlObjectListModel.IndexOf | app/adsb/qmlobjectlistmodel.h:45 | The first row of an object, or -1 exactly if it is not listed |
| QmlObjectListModels.QmlObjectListModel.Insert | app/adsb/qmlobjectlistmodel.cpp:168-185 | Connects the object, inserts and announces it and makes the model dirty |
| QmlObjectListModels.QmlObjectListModel.Append | app/adsb/qmlobjectlistmodel.cpp:213-216 | The same at the end of the list |
| QmlObjectListModels.QmlObjectListModel.InsertAll | app/adsb/qmlobjectlistmodel.cpp:187-211 | Connects and inserts every object of a batch, one row late, and announces the rows asked for |
| QmlObjectListModels.QmlObjectListModel.AppendAll | app/adsb/qmlobjectlistmodel.cpp:218-221 | A batch appended is the old list followed by the batch |
| QmlObjectListModels.QmlObjectListModel.SetDirty | app/adsb/qmlobjectlistmodel.cpp:242-256 | Does nothing if nothing changes, otherwise cleans the children on the way to clean, and says so |
| QmlObjectListModels.QmlObjectListModel.ChildDirtyChanged | app/adsb/qmlobjectlistmodel.cpp:258-264 | Once per connection, the model takes on the child's dirt and says so |
| QmlObjectListModels.QmlObjectListModel.Clear | app/adsb/qmlobjectlistmodel.cpp:140-150 | Empties the list inside a reset of its own, or silently inside an outside one |
| QmlObjectListModels.QmlObjectListModel.SwapObjectList | app/adsb/qmlobjectlistmodel.cpp:223-235 | Replaces the list the same way and returns the old one |
| QmlObjectListModels.QmlObjectListModel.SetData | app/adsb/qmlobjectlistmodel.cpp:76-85 | Replaces and announces one row for the object role, otherwise does nothing |
| QmlObjectListModels.QmlObjectListModel.BeginReset | app/adsb/qmlobjectlistmodel.cpp:284-291 | Opens an outside reset |
| QmlObjectListModels.QmlObjectListModel.EndReset | app/adsb/qmlobjectlistmodel.cpp:293-300 | Closes it, so that views read the list again |
| QmlObjectListModels.QmlObjectListModel.ClearAndDeleteContents | app/adsb/qmlobjectlistmodel.cpp:274-282 | Clears inside a second, enclosing reset |
| AdsbStoreProofs.ListedIff | app/adsb/adsbvehiclemanager.cpp:91-147 | In every history, clears included, an address is listed exactly if it had a located report, no tick came more than 25000 ms after its last one, and no clear ever came while that was so; the map holds exactly the addresses alive or cleared while alive, each as its last located report says in every field that report gave, and as old |
| AdsbStoreProofs.ListedIffAlive | app/adsb/adsbvehiclemanager.cpp:91-147 | So without a clear an address is listed exactly if it is alive |
| AdsbStoreProofs.ListInOrderOfAppearance | app/adsb/adsbvehiclemanager.cpp:94-137 | The list is in order of appearance, reappearance included |
| AdsbStoreProofs.AppearanceIs | app/adsb/adsbvehiclemanager.cpp:127-138 | The appearance of a listed address is the report that found it unlisted and since which it has always been listed |
| AdsbStoreProofs.ShownIsMerged | app/adsb/adsbvehiclemanager.cpp:130-138 | What is shown of a listed aircraft is the merge of its located reports since it appeared |
| AdsbStoreProofs.ListAndMapAgreeIff | app/adsb/adsbvehiclemanager.cpp:91-138 | In every history listed addresses are distinct, in the map, and held under themselves; the map holds no other exactly if no clear ever found an aircraft alive |
| AdsbStoreProofs.ClearedForever | app/adsb/adsbvehiclemanager.cpp:116-138 | An aircraft listed when the list is cleared is never listed again, whatever comes after |
| AdsbStoreProofs.OrphanStays | app/adsb/adsbvehiclemanager.cpp:94-138 | An address known but not listed stays so under every continuation |
| AdsbStoreProofs.BoundedStaleness | app/adsb/adsbvehiclemanager.cpp:94-102 | With the last tick at most a gap ago, no listed aircraft was last heard of more than 25000 ms and the gap ago |
| AdsbStoreProofs.IndicatorIs | app/adsb/adsbvehiclemanager.cpp:103-145 | The timer holds the last accepted report, and the indicator is the one of the last tick |
| AdsbStoreProofs.IndicatorInSeconds | app/adsb/adsbvehiclemanager.cpp:103-145 | Once a report was accepted the indicator is 0, 1 or 2 as the last tick found it more than 60000 ms, more than 20000 ms, or at most 20000 ms ago |
| AdsbStoreProofs.TickSetsIndicator | app/adsb/adsbvehiclemanager.cpp:103-112 | A tick sets it to 0 or 1 by the same two numbers and otherwise leaves it, also before the first report, where it reads the unstarted timer |
| AdsbStoreProofs.OnTimeBounds | app/adsb/adsbvehiclemanager.cpp:62-112 | With ticks on time: no listed aircraft older than 29500 ms, a green indicator at most 24500 ms, a red one at most 64500 ms behind the last report |
| AdsbStoreProofs.TickRaisesIff | app/adsb/adsbvehiclemanager.cpp:103-112 | A tick raises the indicator exactly if no report was accepted yet, it is 0, and the unstarted timer reads between 20 and 60 seconds |
| AdsbStoreProofs.SurvivorsInOrder | app/adsb/adsbvehiclemanager.cpp:94-102 | Two survivors of a sweep stood in the same order before |
| AdsbStoreProofs.BatchLeavesListedIff | app/adsb/adsbvehiclemanager.cpp:121-147 | A located report leaves its address listed exactly if no clear found it alive before |
| AdsbVehicleManagers.ADSBVehicleManager.AdsbVehicleUpdate | app/adsb/adsbvehiclemanager.cpp:121-147 | One report is one step of the history; list and map share objects, and an attached view still shows the list |
| AdsbVehicleManagers.ADSBVehicleManager.CleanupStaleVehicles | app/adsb/adsbvehiclemanager.cpp:91-113 | One tick is one step of the history, with the same invariant |
| AdsbVehicleManagers.ADSBVehicleManager.SweepRows | app/adsb/adsbvehiclemanager.cpp:94-102 | The backwards loop leaves exactly the unexpired vehicles in their order and removes exactly the expired keys from the map |
| AdsbVehicleManagers.ADSBVehicleManager.SweepRow | app/adsb/adsbvehiclemanager.cpp:95-101 | Its body removes an expired row and, through the cast of the address to int and back, its own key |
| AdsbVehicleManagers.ADSBVehicleManager.AdsbClearModel | app/adsb/adsbvehiclemanager.cpp:116-119 | One clear is one step of the history: the list is emptied and its vehicles are deleted, the map keeps them |
| AdsbVehicleManagers.ADSBVehicleManager.ShowsIff | app/adsb/adsbvehiclemanager.cpp:91-147 | After any slots, the list shows a vehicle of an address exactly if the address is alive and no clear found it so |
| AdsbVehicleManagers.ADSBVehicleManager.DanglesIff | app/adsb/adsbvehiclemanager.cpp:95-138 | The map points to a deleted vehicle exactly for the addresses a clear found alive |
| AdsbVehicleManagers.ADSBVehicleManager.SameObjectsIff | app/adsb/adsbvehiclemanager.h:155-156 | Every object in the map is an object in the list exactly if no clear ever found an aircraft alive |
| AdsbFeeds.ProcessSdr | app/adsb/adsbvehiclemanager.cpp:525-653 | The loop emits the order-preserving filter-map of its input |
| AdsbFeeds.SdrAircraft | app/adsb/adsbvehiclemanager.cpp:527-647 | A record is emitted exactly for a valid hex, a position not null, a distance within the limit, and an altitude of at least 5 metres or unknown ones allowed |
| AdsbFeeds.ProcessInternet | app/adsb/adsbvehiclemanager.cpp:300-421 | The same for the internet feed |
| AdsbFeeds.InternetAircraft | app/adsb/adsbvehiclemanager.cpp:301-420 | Its conditions: valid hex, position not null, altitude as set; no distance test |
| AdsbFeeds.SdrEmitsInOrder | app/adsb/adsbvehiclemanager.cpp:525-653 | Every accepted aircraft is emitted, at the place of its rank among the accepted ones |
| AdsbFeeds.InternetEmitsInOrder | app/adsb/adsbvehiclemanager.cpp:300-421 | The same for the internet feed |
| AdsbFeeds.EmittedIsLocated | app/adsb/adsbvehiclemanager.cpp:326-555 | Whatever the uninitialised flags held, everything either feed emits passes the manager's location gate |
| AdsbFeeds.SdrEndsUpListedIff | app/adsb/adsbvehiclemanager.cpp:116-647 | After any history, an aircraft the SDR feed accepts ends up listed under its address exactly if no clear found it alive before |
| AdsbFeeds.InternetEndsUpListedIff | app/adsb/adsbvehiclemanager.cpp:116-420 | The same for the internet feed |
| AdsbFeeds.SdrAcceptsIff | app/adsb/adsbvehiclemanager.cpp:532-606 | The SDR loop lets an aircraft through exactly for a valid hex, a position not null, a distance within the whole kilometres of the limit, and unknown altitudes allowed or a whole number of feet, 17 or more |
| AdsbFeeds.InternetAcceptsIff | app/adsb/adsbvehiclemanager.cpp:304-377 | The internet loop exactly for a valid hex, a position not null, and unknown altitudes allowed or an altitude of 5 or more |
| AdsbFeeds.SdrInfoSays | app/adsb/adsbvehiclemanager.cpp:540-645 | Every field of an SDR record from the JSON fields: position, distance, callsign, feet to metres, knots to whole km/h, track, last contact, feet per minute to whole m/s, each with its null and absent case, and the bits given |
| AdsbFeeds.InternetInfoSays | app/adsb/adsbvehiclemanager.cpp:313-417 | The same for an internet record, where 0 counts as unknown altitude and speed |
| AdsbFeeds.RoundIsNearest | app/adsb/adsbvehiclemanager.cpp:614-638 | round is the nearest whole number, the one away from zero when two are as near |
| AdsbFeeds.SdrIsHeld | app/adsb/adsbvehiclemanager.cpp:121-647 | After delivery the store holds of an address what its last accepted SDR aircraft says, whatever it held before |
| AdsbFeeds.InternetIsHeld | app/adsb/adsbvehiclemanager.cpp:121-420 | The same for the internet feed |
| AdsbFeeds.AbsentPositionIsZero | app/adsb/adsbvehiclemanager.cpp:317-549 | An absent position is treated exactly as 0, 0 |
| Endpoints.ParseEndpoint | integration/openhd_mavlink_tool.cpp:73-93 | The endpoint the pairs taken out say, a bad port being fatal, and the vector moved on by twice their number |
| Endpoints.StripsRightIffInFront | integration/openhd_mavlink_tool.cpp:76-91 | Moving the vector on leaves exactly the arguments not taken if and only if all pairs stand in front |
| Endpoints.GlobalOptionsFirst | integration/openhd_mavlink_tool.cpp:73-525 | Global options in front, with any values, leave exactly the command and its arguments, and the move is less than the argument count |
| Endpoints.NoCommandLeftIff | integration/openhd_mavlink_tool.cpp:514-525 | No command is left to read exactly if every argument was taken |
| Endpoints.LastOnesWin | integration/openhd_mavlink_tool.cpp:78-85 | The last host wins, and the last port modulo 65536 |
| Endpoints.TakesNothing | integration/openhd_mavlink_tool.cpp:76-88 | Arguments that are no global option are left alone, and so is such an option at the very end |
| Endpoints.TakesNext | integration/openhd_mavlink_tool.cpp:76-88 | The next global option is taken wherever it stands, with whatever stands behind it, and what stood before it is left in place |
| Endpoints.PairsDecide | integration/openhd_mavlink_tool.cpp:74-83 | Without options the endpoint is 127.0.0.1:14550; the program ends exactly if some port is no number |
| OptionParsing.ParseOptions | integration/openhd_mavlink_tool.cpp:171-194 | The option loop computes the table-driven reading of the arguments |
| OptionParsing.ParseBoolFlag | integration/openhd_mavlink_tool.cpp:327-331 | "1" exactly for on, enable, 1, yes and true, "0" exactly for off, disable, 0, no and false, and nothing for any other word |
| OptionParsing.PrintedIsReadBack | integration/openhd_mavlink_tool.cpp:171-472 | Printed settings, in any order, repeated, with any arguments, are read as what they mean in turn, failing at the first bad one |
| OptionParsing.ItemsAreReadBack | integration/openhd_mavlink_tool.cpp:171-472 | Words that are no options are skipped, and so is an option at the end without its argument; the rest is read as what it means in turn |
| OptionParsing.EveryVectorIsItems | integration/openhd_mavlink_tool.cpp:171-472 | Every argument vector is of that kind |
| OptionParsing.AppliedFailsIff | integration/openhd_mavlink_tool.cpp:171-472 | Reading fails exactly if some argument cannot be read, in the way of the first such |
| OptionParsing.ReadIs | integration/openhd_mavlink_tool.cpp:171-331 | A string is taken as it is, a switch as "1" or "0" by its word or return 1, a number as stoi reads it or an exception |
| OptionParsing.SaidIsRead | integration/openhd_mavlink_tool.cpp:171-472 | Every option has the value behind its last spelling |
| OptionParsing.LastOneWins | integration/openhd_mavlink_tool.cpp:171-194 | A repeated option has its last value, an option not given keeps the one before |
| OptionParsing.RecordRoundTrip | integration/openhd_mavlink_tool.cpp:171-472 | Every record of options printed in any order is read back |
| SetLink.LinkRoundTrip | integration/openhd_mavlink_tool.cpp:171-194 | Every record of link options printed in any order behind set-link is read back |
| SetUart.UartRoundTrip | integration/openhd_mavlink_tool.cpp:433-472 | The same for set-uart |
| SetWifi.WifiRoundTrip | integration/openhd_mavlink_tool.cpp:342-359 | The same for set-wifi |
| Decimals.StoIOfToString | integration/openhd_mavlink_tool.cpp:184-210 | An int written by to_string is read back by stoi |
| Decimals.StoIReads | integration/openhd_mavlink_tool.cpp:81-184 | stoi reads spaces, an optional sign and digits, whatever follows, and fails exactly without digits or outside the int range |
| ParamEncoding.Strncpy | integration/openhd_mavlink_tool.cpp:101-103 | Fills a field with the characters before the first NUL, cut to the field, padded with NUL |
| ParamEncoding.EncodeField | integration/openhd_mavlink_tool.cpp:101-104 | The same with the last byte forced to NUL |
| ParamEncoding.EncodedBytes | integration/openhd_mavlink_tool.cpp:101-104 | Every byte of a field: the characters before the first NUL as far as they fit, NUL behind them and at the end |
| ParamEncoding.DecodedOfEncoded | integration/openhd_mavlink_tool.cpp:101-104 | The receiver reads the string before its first NUL, cut to one character less than the field |
| ParamEncoding.NameIntactIff | integration/openhd_mavlink_tool.cpp:101-102 | A parameter name arrives as it is exactly if it has at most 15 characters and no NUL |
| ParamEncoding.CardNameIntactIff | integration/openhd_mavlink_tool.cpp:203-212 | A per-card name arrives intact exactly while the index has no more digits than there is room for |
| ParamEncoding.CardNamesCollideIff | integration/openhd_mavlink_tool.cpp:203-212 | Two card indices give the same name on the wire exactly if their leading digits that fit agree |
| ParamEncoding.TxPowerNames | integration/openhd_mavlink_tool.cpp:203-212 | TX_POWER_MW_ names are intact exactly below card 1000, TX_POWER_MWA_ names exactly below card 100 |
| ParamSending.SendParamSet | integration/openhd_mavlink_tool.cpp:95-114 | One message with both fields encoded is attempted, and the answer is the socket's |
| ParamSending.SendIf | integration/openhd_mavlink_tool.cpp:199-214 | A present option is attempted whatever failed before, and success means everything so far got through |
| ParamSending.PlanHolds | integration/openhd_mavlink_tool.cpp:198-216 | A message is in the plan exactly if it carries a present parameter to one of the targets |
| ParamSending.PlanInOrder | integration/openhd_mavlink_tool.cpp:198-216 | Each target gets its parameters, in order, as one block behind those of the targets before it |
| ParamSending.AttemptedIff | integration/openhd_mavlink_tool.cpp:196-501 | A message is attempted exactly if some option's parameter, with the value said last for the option, goes to one of the targets |
| ParamSending.BuiltIsRead | integration/openhd_mavlink_tool.cpp:95-108 | A receiver reads at most 15 characters of the name and 127 of the value, for the target and of the type given |
| ParamSending.TargetsAre | integration/openhd_mavlink_tool.cpp:128-325 | Air is 101, ground 100, both component 191; the default is air, then ground |
| SetLink.HandleSetLink | integration/openhd_mavlink_tool.cpp:161-219 | Exactly the plan is attempted for every pattern of failures, and 0 is returned only if all of it got through; bad arguments send nothing |
| SetLink.SendLink | integration/openhd_mavlink_tool.cpp:196-218 | Targets in order times present options in order |
| SetLink.LinkNamesStayDistinct | integration/openhd_mavlink_tool.cpp:199-214 | No two parameters of one set-link are taken for each other by the receiver, whatever the card index |
| SetLink.LinkVector | integration/openhd_mavlink_tool.cpp:161-216 | Any arguments of set-link, by their words alone: they fail exactly at a bad switch or card, and otherwise each option, by its name, goes into its parameter, by its name, in order, to air and, unless told otherwise, ground |
| SetLink.LinkMessages | integration/openhd_mavlink_tool.cpp:161-216 | The messages attempted for any arguments, by their words alone |
| SetUart.HandleSetUart | integration/openhd_mavlink_tool.cpp:419-509 | The same for set-uart, with an unknown target sending nothing |
| SetUart.SendUart | integration/openhd_mavlink_tool.cpp:486-501 | Targets in order times present options in order, tracker options behind the others for system 100 |
| SetUart.TrackerOnlyForGround | integration/openhd_mavlink_tool.cpp:496-500 | Tracker parameters go to system 100 alone, each of them that is given, and everything else to every target |
| SetUart.OnlyTrackerDeviceIsCut | integration/openhd_mavlink_tool.cpp:488-499 | Of the set-uart names exactly TRACKER_UART_OUT does not arrive whole |
| SetUart.PortParamsIff | integration/openhd_mavlink_tool.cpp:488-494 | Each of the seven port parameters is present exactly with the value of its own option |
| SetUart.UartVector | integration/openhd_mavlink_tool.cpp:419-501 | Any arguments of set-uart, by their words alone: they fail exactly at a bad switch, go to the target said or to the default ones, and carry each option, by its name, in its parameter, by its name, in order, the tracker's for system 100 |
| SetUart.UartMessages | integration/openhd_mavlink_tool.cpp:419-501 | The messages attempted for any arguments, by their words alone |
| SetWifi.HandleSetWifi | integration/openhd_mavlink_tool.cpp:333-417 | An unknown mode sends nothing, an unknown hotspot mode the mode alone; 0 is returned only if both are known and everything got through |
| SetWifi.WifiVector | integration/openhd_mavlink_tool.cpp:333-409 | Any arguments of set-wifi, by their words alone: the target, the numbers 0 to 2 of the modes, each option in its parameter in order, and what an unknown mode leaves out |

## Left out

- ADSBVehicle.Update: says which signals one update emits, not their order; it is cut into four methods along the lines of the source.
- ThreadsafeQueue: liveness under a fair scheduler and the length of a timeout are not modelled; a timeout may come at any moment.
- QmlObjectListModel: `_skipDirtyFirstItem`, which nothing ever sets, the warnings, object ownership and `deleteLater` are not modelled, nor that `get` of a null row cannot be told from an index outside the list.
- ADSBVehicleManager: `statusChanged`, the debug output, `_evaluateTraffic` (its branches are empty) and the reclaiming of deleted vehicles are not modelled; a vehicle deleted by a clear can still be updated through the map, where the source would reach freed memory. Nothing in the source emits the request to clear.
- AdsbFeeds: network access, JSON text, the reading of hexadecimal text and the haversine formula are inputs (`hex`, the JSON fields, `distance`); infinities and rounding of doubles are not modelled.
- OptionParsing: one loop over a table stands for the three handwritten loops, and one map for their optional locals.
- ParamSending: packet framing and checksums are not modelled; a message is its target, its two encoded fields and its type.
- `handle_scan`, `handle_set_video`, `handle_set_camera` and `handle_set_recording`: the same shape as the commands modelled.
- `main` beyond the argument vector, the socket, and the console output.
- The rest of the application: start-up, translations, video, telemetry and user interface.
