# ChatUp: proofs about its shared state

A Dafny model of the parts of ChatUp in which many callers touch one piece of state that is kept
consistent by counting, indexing or correlation. Each module follows one or two source files:

| file | source | what it holds |
|---|---|---|
| MediaPipe.dfy | lib/media/datapipe.h | the slot pool: its locked sections as functions on the field values, and the class that runs them |
| PipeProtocol.dfy | lib/media/datapipe.h | every interleaving of writers, readers, deliveries and registrations around one pipe |
| SinkConnector.dfy, Decoder.dfy, DecoderOutput.dfy, RtcWriter.dfy | lib/media/media.cpp, lib/media/decoder.cpp, lib/network/rtcservice.cpp | three clients, interleaved with everybody else on the same pipes |
| IdentifyingModel.dfy | lib/core/models/identifyingmodel.h | the row list with its hash index |
| MessageHistory.dfy, Paging.dfy | lib/network/controllers/messagecontroller.cpp, app/qml/MessagesView.qml | optimistic sending and history paging on top of it |
| RpcClient.dfy | lib/network/networkcoordinator.cpp, lib/network/serverrpcwrapper.cpp, lib/network/rpc.cpp | a call's way from the queues to its reply |
| Handshake.dfy | lib/network/serverrpcwrapper.cpp | connecting, and losing the connection |
| LockOrder.dfy | lib/network/networkcoordinator.cpp, lib/network/serverrpcwrapper.cpp | the two mutexes that the network thread and the closed handler take in opposite order |
| TaskQueue.dfy | lib/core/taskqueue.h, lib/core/taskqueue.cpp | the delayed job queue |
| Readings.dfy | lib/network/controllers/groupcontroller.cpp | batching of read counters |
| CallGrid.dfy | app/qml/CallParticipantView.qml | the grid search and its primality test |

Code that changes state is a class whose methods are proved equal to functions on the state; the
transition systems use the same functions, and their theorems hold for every legal run of any
length. Fields that only record who holds what (readers, owners, logs) are read by no step of the
modelled code.

## Where the code does less than it promises

Each of these is kept as the code has it, with the exact condition under which the promise holds.

- `insertRows` keeps rows and index in agreement only for one row of a fresh id at row 0 of a model
  that does not have exactly one row. Two quick messages into an empty room therefore go wrong: the
  reply to the first overwrites the second, and the second is never confirmed
  (`RowIndex.InsertRowsAgrees`, `MessageHistory.SecondMessageLost`).
- The row of a page is fixed when it is asked for. If a message comes into the room before the page
  does, the page goes in above the end, and the entries of the rows behind it are left wrong; a
  reply can then replace a row of the page (`MessageHistory.HistoryAgrees`,
  `MessageHistory.LateMeansOvertaken`, `MessageHistory.LatePageMisleads`).
- So a reply replaces the row of its own message exactly when that row was not stranded in one of
  these two ways before it came. A wrong entry of a confirmed message never misleads one
  (`MessageHistory.ReplyFindsItsMessage`, `MessageHistory.HarmlessSend`).
- `insertRange` needs the end of the model, known items first and distinct new ids; `removeRows`
  needs a count of one; the by-id `setData` never survives a change of id, because it reads the
  erased key back into the index (`RowIndex.OperationAgrees`).
- The decoder's drain reads the bottom of its stack and pops the top, so it is right only with at
  most one held slot; with two it releases the first twice and loses the second
  (`Decoder.DecoderMeetsItsObligation`, `Decoder.DoubleReleaseReached`). The pipe cannot tell such a
  release from an owed one, and sets the slot free under another listener that still reads it, so
  that the next writer gets it (`PipeProtocol.UnowedRelease`, `PipeProtocol.FreedUnderReader`).
- A packet that cannot be filled leaves its slot taken for good (`RtcWriter.FailedFillsCostSlots`,
  `RtcWriter.FailedFillReached`).
- A call whose send fails stays in the request table, so a reply to it settles it a second time
  (`RpcClient.SettledOnceExactly`, `RpcClient.SettledTwice`).
- The network thread takes the wrapper's mutex in its reconnect loop while it keeps the coordinator's,
  and the closed handler takes them the other way round. The two wait for each other for good
  when the close of a live connection is handled while the thread has an attempt left, or the
  thread wakes up before that handler's callback (`LockOrder.WaitIffCollision`,
  `LockOrder.WaitReachable`).
- A close left in the queue from a failed attempt takes down the next connection, and `connect` reads
  no promise, or a later one, when the attempt is settled before it returns
  (`Handshake.CallbackPerLoss`, `Handshake.StaleCloseReached`, `Handshake.SharedFuture`,
  `Handshake.CreatorTooLate`).
- The job queue puts the latest time on top, so nothing of one priority starts before everything
  pending is due; and with two workers or more the timed wait can read the top of an empty queue
  (`TaskQueue.TopIsLatest`, `TaskQueue.EmptyTopIffTwoWorkers`).
- A read count of 2^31 or more is stored as another number (`Readings.StoredAsSubmitted`,
  `Readings.BatchingDeliversTheMaximum`).
- In a box without height, as before the first layout, or in an extremely wide one no divisor pair
  beats the search's initial bound, and the grid is a single cell
  (`CallGrid.WhenTheGridHasThePlaces`).

## Assumptions

- A section under one mutex is one step, but for the nested ones of LockOrder; memory orders and the data race on the request table
  between the network thread and the transport thread are not modelled.
- One thread at a time publishes into a pipe, since the delivery loop reads the listeners outside
  the lock. A writer unmaps a slot once per hold, a listener releases once per delivery, and only
  returned indices are unregistered; the three client modules show how far the real clients comply.
- The server numbers messages from one on and answers a request at most once. That its ids are new to
  a room, and its pages start with what the room knows, is not assumed in MessageHistory: it is a
  part of the condition where it matters. Paging takes the messages of the server to have distinct
  ids. An honest server, where that is asked for, answers only messages it got.
- `open` does not throw, and `connect` is called only while the flag is down.
- The clock does not run backwards; the codec, the transport, the timer and the server are inputs.
- The grid search is over real numbers; a box is not of negative size, and the view's constants make a
  cell wider than high.

## Model

| member | source | states |
|---|---|---|
| MediaPipe.FirstFree | lib/media/datapipe.h:158-170 | the scan stops at the lowest free slot, and gives up exactly when none is free |
| MediaPipe.DataPipe.constructor | lib/media/datapipe.h:42-53 | all slots free, as many permits as slots, no listeners |
| MediaPipe.DataPipe.TryAcquire | lib/media/datapipe.h:82-91 | takes a permit exactly when there is one |
| MediaPipe.DataPipe.TakeFree | lib/media/datapipe.h:158-170 | takes the lowest free slot and changes nothing else |
| MediaPipe.DataPipe.OnDataChanged | lib/media/datapipe.h:92-98 | returns the next index and only queues the registration |
| MediaPipe.DataPipe.RemoveListener | lib/media/datapipe.h:104-110 | only queues the removal |
| MediaPipe.DataPipe.DrainQueues | lib/media/datapipe.h:115-126 | the two loops leave listeners plus all queued additions minus all queued removals, and empty queues |
| MediaPipe.DataPipe.Unmap | lib/media/datapipe.h:111-134 | drains; with readers to notify and somebody registered it fixes the reader count at their number and the delivery follows, otherwise the slot and its permit are free |
| MediaPipe.DataPipe.ReleaseReading | lib/media/datapipe.h:141-152 | counts one reader down, wrapping at zero, and frees the slot and its permit at zero |
| MediaPipe.InOrderMember | lib/media/datapipe.h:92-110 | who is registered after calls applied one by one |
| MediaPipe.BatchedIsInOrder | lib/media/datapipe.h:115-126 | draining additions, then removals, gives the issue-order listener set exactly when no index is removed before an addition of it that stays |
| PipeProtocol.StepInv | lib/media/datapipe.h:76-170 | every step keeps the whole pipe invariant |
| PipeProtocol.RunInv | lib/media/datapipe.h:76-170 | so does every run |
| PipeProtocol.PublishStarts | lib/media/datapipe.h:111-137 | a delivery to all registered begins exactly when readers are notified and somebody is registered; otherwise the slot is free at once; no other slot changes |
| PipeProtocol.TakeAndRelease | lib/media/datapipe.h:141-170 | a permit becomes the lowest free slot; a release counts down and frees after the last reader; nothing else changes |
| PipeProtocol.IssuedInOrder | lib/media/datapipe.h:92-126 | who is registered is what the calls of the run give in issue order |
| PipeProtocol.PermitsConserved | lib/media/datapipe.h:76-91 | permits left + permits in flight + slots not free = size in every reachable state; getFree never throws |
| PipeProtocol.SlotsExclusive | lib/media/datapipe.h:111-170 | a slot is free, held by a writer, or being read, never two of these; its counter is the listeners still to call plus those yet to release; each hold is freed once |
| PipeProtocol.LastReleaseFrees | lib/media/datapipe.h:141-152 | a release frees the slot exactly when nobody is left to call and it is the last one |
| PipeProtocol.QuietPipeIsEmpty | lib/media/datapipe.h:127-152 | once all holders are gone every slot is free and every permit is back |
| PipeProtocol.WholeDelivery | lib/media/datapipe.h:111-140 | a notifying publication calls, once each and in index order, exactly the listeners that the calls of the run before it leave registered; it can always go on to the next and ends only after the last; with none, the slot is free at once |
| PipeProtocol.UnowedRelease | lib/media/datapipe.h:141-152 | a release that is not owed is harmless exactly when the slot is free, or held by a writer with an old counter other than one |
| PipeProtocol.FreedUnderReader | lib/media/datapipe.h:141-170 | with one other listener left to release, the slot is set free under it and the next writer takes it |
| VideoSink.SinkConnector.OnFrame | lib/media/media.cpp:165-181 | releases the frame before, shows the new one, swaps the two records |
| VideoSink.StepKeepsSinkInv | lib/media/media.cpp:165-181 | what the sink holds is what the pipe thinks it owes, through every step of anybody |
| VideoSink.SinkMeetsItsObligation | lib/media/media.cpp:165-181 | after k frames it has released frames 1 to k-1 in order, each release was owed, and it holds one slot between frames and at most two inside a callback |
| Decoder.DrainReleases | lib/media/decoder.cpp:82-86 | the drain releases the bottom of the stack as often as the stack is high |
| Decoder.DrainIsExact | lib/media/decoder.cpp:82-86 | it releases each held slot once exactly when at most one is held |
| Decoder.DrainOfTwo | lib/media/decoder.cpp:82-86 | with two held slots the first goes back twice and the second never |
| Decoder.AbstractDecoder.DrainHeld | lib/media/decoder.cpp:82-86 | the drain loop makes just those releases and empties the stack |
| Decoder.AbstractDecoder.OnPacket | lib/media/decoder.cpp:43-88 | what one packet releases, unmaps with which notification, holds and drops, for every answer of the codec |
| Decoder.StepAccounting | lib/media/decoder.cpp:43-88 | each step keeps every delivered slot in one place, except a drain that finds more than one |
| Decoder.DecoderMeetsItsObligation | lib/media/decoder.cpp:39-88 | over every interleaving the accounts are right throughout exactly when no drain ever finds more than one held slot |
| Decoder.PacketInOrBack | lib/media/decoder.cpp:39-58 | a delivered packet joins the queue, the worker takes the first, and a refused one goes straight back to the pipe |
| Decoder.OutputReturned | lib/media/decoder.cpp:61-81 | every output slot taken is unmapped once, before the next is taken |
| Decoder.PacketAsSteps | lib/media/decoder.cpp:43-88 | the worker's steps, left to themselves, have the effect that the callback states |
| Decoder.DoubleReleaseReached | lib/media/decoder.cpp:82-86 | a legal run of a pipe of three slots or more, with two listeners, in which the drain finds two: one slot goes back twice and is written again while it is read, the other never goes back |
| DecoderOutput.StepKeepsWriterInv | lib/media/decoder.cpp:61-81 | the frame pipe's one writer holds just the slot it decodes into, through every step of both pipes |
| DecoderOutput.DecoderWritesRight | lib/media/decoder.cpp:61-81 | in every run the decoder finds a slot for its permit and may unmap the one it has, once; idle and unread, all slots of the frame pipe are free |
| DecoderOutput.AnswerPublishes | lib/media/decoder.cpp:70-82 | a decoded frame goes to everybody registered with the frame pipe; an output slot without one is free at once |
| DecoderOutput.RunOfTheDecoder | lib/media/decoder.cpp:39-88 | such a run is one of the decoder's on its packet pipe |
| RtcWriter.StepKeepsWriterInv | lib/network/rtcservice.cpp:96-129 | a slot's buffer holds the bytes it was published with while it is read, through every step |
| RtcWriter.BufferStableWhileRead | lib/network/rtcservice.cpp:112-128 | while a slot is read its buffer has the bytes of the frame that came in before its publication, and no step overwrites them |
| RtcWriter.FrameIsPublished | lib/network/rtcservice.cpp:112-128 | a frame that can be filled is published to everybody registered with the bytes that came in |
| RtcWriter.FailedFillsCostSlots | lib/network/rtcservice.cpp:112-128 | each failed fill of the run loses one slot for good; all slots come back exactly when none failed |
| RtcWriter.FailedFillReached | lib/network/rtcservice.cpp:112-128 | a legal run that loses a slot |
| RowIndex.IdentifyingModel.IdToIndex | lib/core/models/identifyingmodel.h:119-125 | a linear scan for the id, as long as rows and index agree; an entry outside the rows gives no row |
| RowIndex.IdentifyingModel.Reset | lib/core/models/identifyingmodel.h:72-80 | leaves the empty model |
| RowIndex.IdentifyingModel.InsertRows | lib/core/models/identifyingmodel.h:199-221 | both loops and the insertion, as written |
| RowIndex.IdentifyingModel.InsertDataList | lib/core/models/identifyingmodel.h:223-245 | shift, index and insert a list |
| RowIndex.IdentifyingModel.RemoveUnknown | lib/core/models/identifyingmodel.h:131-135 | remove_if in place: how many known items it moves to the front, and what it leaves behind them |
| RowIndex.IdentifyingModel.InsertRange | lib/core/models/identifyingmodel.h:126-149 | inserts what remove_if left, indexing without overwriting |
| RowIndex.IdentifyingModel.RemoveRows | lib/core/models/identifyingmodel.h:250-266 | drops one id, erases the rows, shifts the rest |
| RowIndex.IdentifyingModel.SetItem | lib/core/models/identifyingmodel.h:150-169 | replaces a row and moves its index entry |
| RowIndex.IdentifyingModel.SetRole | lib/core/models/identifyingmodel.h:89-118 | edits a row and, for an id, moves its index entry; a refused edit changes nothing |
| RowIndex.IdentifyingModel.SetById | lib/core/models/identifyingmodel.h:170-193 | edits the row whose number is the id, and reads the erased key back; a refused edit changes nothing |
| RowIndex.AgreementMakesLookupAScan | lib/core/models/identifyingmodel.h:119-125 | with rows and index in agreement ids are distinct and the lookup equals a linear scan |
| RowIndex.InsertRowsAgrees | lib/core/models/identifyingmodel.h:199-221 | keeps the agreement exactly for one fresh row at 0 of a model without exactly one row |
| RowIndex.InsertDataListAgrees | lib/core/models/identifyingmodel.h:223-245 | exactly for distinct fresh ids |
| RowIndex.TailIsFresh | lib/core/models/identifyingmodel.h:131-136 | the new items survive remove_if intact and alone exactly when the known ones come first |
| RowIndex.InsertRangeAgrees | lib/core/models/identifyingmodel.h:126-149 | exactly when appending, known items first, new ids distinct |
| RowIndex.RemoveRowsAgrees | lib/core/models/identifyingmodel.h:250-266 | exactly for a count of one |
| RowIndex.SetItemAgrees | lib/core/models/identifyingmodel.h:150-169 | exactly when the id stays or is fresh |
| RowIndex.SetRoleAgrees | lib/core/models/identifyingmodel.h:89-118 | exactly when the id stays or is fresh |
| RowIndex.SetByIdAgrees | lib/core/models/identifyingmodel.h:170-193 | exactly when no id changes and none is written into another row; just the named row is edited exactly when the id is its number or nothing changes |
| RowIndex.OperationAgrees | lib/core/models/identifyingmodel.h:72-266 | any operation is refused exactly outside its bounds, and keeps the agreement exactly when it is refused or meets its guard |
| RowIndex.OperationRows | lib/core/models/identifyingmodel.h:72-266 | an accepted operation puts in, takes out or overwrites just the rows it names, in order and with their values; a refused one changes nothing |
| RowIndex.ValueSetById | lib/core/models/identifyingmodel.h:89-118 | a value set at the row of an id is found under that id, and no other row changes |
| RowIndex.ItemSetById | lib/core/models/identifyingmodel.h:89-169 | an item or id set there is found under the new id and no more under the old one |
| RowIndex.ByIdLeavesKey | lib/core/models/identifyingmodel.h:182-188 | the by-id change of an id leaves the erased key pointing at row zero |
| RowIndex.RunAgrees | lib/core/models/identifyingmodel.h:72-266 | a whole run agrees throughout exactly when every accepted operation met its guard |
| MessageHistory.CallerController.CreateMessage | lib/network/controllers/messagecontroller.cpp:46-66 | the new message is on top under the next negative id, with the author, body and time given and index 2^32 - 1, above the rows that were there; the request pending is for it |
| MessageHistory.CallerController.HandleReply | lib/network/controllers/messagecontroller.cpp:68-78 | replaces the row found under the temporary id, or returns the invalid id |
| MessageHistory.CallerController.HandleBroadcast | lib/network/controllers/messagecontroller.cpp:12-26 | inserts at the top of the room, ignoring invalid ids |
| MessageHistory.CallerController.OpenModel | lib/network/controllers/messagecontroller.cpp:82-87 | the room is there afterwards, with the rows it had |
| MessageHistory.CallerController.LoadPage | lib/network/controllers/messagecontroller.cpp:89-95 | captures the room and the row given |
| MessageHistory.CallerController.HandlePage | lib/network/controllers/messagecontroller.cpp:95-100 | inserts the page at the captured row |
| MessageHistory.StepRooms | lib/network/controllers/messagecontroller.cpp:12-102 | what each step does to the rows of its room, in any state of the index, and that it touches no other room |
| MessageHistory.SendEffect | lib/network/controllers/messagecontroller.cpp:46-66 | the message comes on top of the old rows; rows and index still agree exactly when there was not just one row |
| MessageHistory.ReplyEffect | lib/network/controllers/messagecontroller.cpp:68-78 | the reply replaces the row of its own message, as sent, and nothing else, exactly when its temporary id is not stranded |
| MessageHistory.BroadcastEffect | lib/network/controllers/messagecontroller.cpp:12-26 | a broadcast adds one row on top; rows and index still agree exactly when its id was new |
| MessageHistory.LoadedEffect | lib/network/controllers/messagecontroller.cpp:89-102 | an accepted page goes in at the row asked for; rows and index still agree exactly when it is not late, known messages come first, and the rest are distinct |
| MessageHistory.StepInv | lib/network/controllers/messagecontroller.cpp:12-102 | every step but a misled reply keeps track of the row and index entry of each pending message |
| MessageHistory.ReplyFindsItsMessage | lib/network/controllers/messagecontroller.cpp:46-81 | over every interleaving each reply, in any order, replaces exactly its own row exactly when none comes for a stranded temporary id |
| MessageHistory.HistoryAgrees | lib/network/controllers/messagecontroller.cpp:12-102 | over every interleaving all rooms agree throughout exactly when no message is sent into a room of one row, no accepted page comes late, and the server's ids and pages are in order |
| MessageHistory.LateMeansOvertaken | lib/network/controllers/messagecontroller.cpp:89-100 | a page is late exactly when a row was put into its room since it was asked for |
| MessageHistory.LatePageMisleads | lib/network/controllers/messagecontroller.cpp:46-100 | a broadcast overtakes a page, and the reply to an earlier message replaces the page's row |
| MessageHistory.HarmlessSend | lib/network/controllers/messagecontroller.cpp:46-81 | a send into a room of one confirmed row leaves a wrong entry, and its reply is right |
| MessageHistory.TemporaryIdsNeverCollide | lib/network/controllers/messagecontroller.cpp:46-78 | in every run, whatever goes wrong with the index, no two rows have one temporary id and the next one is in no room and no request |
| MessageHistory.SecondMessageLost | lib/network/controllers/messagecontroller.cpp:46-81 | two quick messages into an empty room: the first reply lands on the second message |
| Paging.MessagesView.LoadMessages | app/qml/MessagesView.qml:154-165 | one load: bounds, reversed page at the end of the model, lowered cursor |
| Paging.PageExtends | lib/network/controllers/messagecontroller.cpp:89-102 | a page extends what is shown down to its lower bound; what was shown before arrives first and is dropped |
| Paging.MessagesView.LoadAll | app/qml/MessagesView.qml:154-170 | paging ends after ceil(messageCount / uploadCount) loads with every message once, newest first, for an inclusive or exclusive upper bound |
| RpcClient.NetworkCoordinator.ServerMethod | lib/network/networkcoordinator.cpp:68-102 | direct calls queue at the back, authorized ones at the front |
| RpcClient.NetworkCoordinator.TakeMethod | lib/network/networkcoordinator.cpp:120-135 | takes the first direct call, else the first authorized one |
| RpcClient.NetworkCoordinator.Turn | lib/network/networkcoordinator.cpp:141-161 | at most the configured number of attempts, none once connected, then one call taken |
| RpcClient.RequestTable.Register | lib/network/serverrpcwrapper.cpp:140-148 | a fresh message id, with the call under it |
| RpcClient.RequestTable.HandleResponse | lib/network/serverrpcwrapper.cpp:46-68 | settles the named request once and erases it; ignores unknown ones |
| RpcClient.SubmitAndTake | lib/network/networkcoordinator.cpp:68-167 | a submitted call waits unsettled in its place; the call taken goes on when connected and is settled as not responding otherwise |
| RpcClient.RegisterAndSend | lib/network/serverrpcwrapper.cpp:131-156 | a call is in the table under the next id before it is sent; a send that throws settles it and leaves the entry |
| RpcClient.ReplySettles | lib/network/serverrpcwrapper.cpp:46-68 | a reply settles the call of its id with the status and payload that came, and is ignored if none is pending |
| RpcClient.CallsConserved | lib/network/networkcoordinator.cpp:68-170 | every submitted call is in exactly one of waiting direct, waiting authorized, in hand, handed on, refused |
| RpcClient.OrderOfLeaving | lib/network/networkcoordinator.cpp:74-135 | direct calls leave in submission order; an authorized call leaves only when no direct one waits, newest first |
| RpcClient.StepKeepsTable | lib/network/serverrpcwrapper.cpp:46-156 | ids, table and outcomes stay matched through every step |
| RpcClient.WhoSettles | lib/network/serverrpcwrapper.cpp:46-156 | only its own send failure or a reply naming its own id settles a call; twice exactly when both happened |
| RpcClient.SettledOnceExactly | lib/network/serverrpcwrapper.cpp:46-156 | over every run, no promise is settled twice exactly when no reply finds the entry of an unsent call and no send fails whose entry is gone |
| RpcClient.SettledTwice | lib/network/serverrpcwrapper.cpp:131-156 | a run in which both happen |
| RpcClient.SettledAtMostOnce | lib/network/serverrpcwrapper.cpp:140-156 | against an honest server every promise is settled at most once, and no first reply to a sent call is lost |
| RpcClient.IdsDistinct | lib/network/rpc.cpp:45-49 | message ids never repeat |
| LockOrder.StepDooms | lib/network/networkcoordinator.cpp:136-170 | a step brings the thread and the handler on the way to waiting for each other exactly when it is one of two collisions |
| LockOrder.AttemptEnds | lib/network/networkcoordinator.cpp:150-159 | an attempt can always end, with the transport open or an error; then, and not before, the thread resumes, with the flag up exactly in the first case |
| LockOrder.CloseIsHandled | lib/network/serverrpcwrapper.cpp:102-111 | a close has its handler run later; that takes the flag down and calls back for a live connection once the thread is outside its mutex |
| LockOrder.WaitIffCollision | lib/network/networkcoordinator.cpp:39-170 | over every run they come to wait for each other exactly when a close collides with the loop; then the wait is all that is left to the thread, whatever else happens, and no call can be submitted |
| LockOrder.WaitReachable | lib/network/serverrpcwrapper.cpp:8-111 | some run comes to the wait exactly when the thread is given an attempt at all |
| Handshake.Connection.BeginConnect | lib/network/serverrpcwrapper.cpp:8-18 | a new promise exactly when none is outstanding |
| Handshake.Connection.OnOpen | lib/network/serverrpcwrapper.cpp:118-129 | raises the flag and settles, only with an attempt outstanding |
| Handshake.Connection.HandleConnectionError | lib/network/serverrpcwrapper.cpp:35-45 | settles and drops the outstanding promise |
| Handshake.Connection.HandleClosed | lib/network/serverrpcwrapper.cpp:102-111 | calls back exactly when the flag was up |
| Handshake.AttemptBeginsAndEnds | lib/network/serverrpcwrapper.cpp:8-130 | a connect with none outstanding begins an attempt and opens the transport; opening or an error ends and settles it; a handled close takes the flag down and is called back for if it was up |
| Handshake.EventsAreDeferred | lib/network/serverrpcwrapper.cpp:96-111 | errors and closes of the transport have their handlers run later, a close with the connection that it ends |
| Handshake.PromisesSettledOnce | lib/network/serverrpcwrapper.cpp:8-45 | each promise is settled exactly once, but for the outstanding one; each connection's end is reported once |
| Handshake.SharedFuture | lib/network/serverrpcwrapper.cpp:8-29 | calls during an attempt share its future; its creator gets it exactly when it returns before the attempt is settled; the flag rises only with an attempt outstanding |
| Handshake.CreatorTooLate | lib/network/serverrpcwrapper.cpp:8-29 | runs in which the creator finds no promise, or the next attempt's |
| Handshake.FlagStep | lib/network/serverrpcwrapper.cpp:96-130 | the flag keeps telling the truth unless an attempt succeeds with a close still queued |
| Handshake.CallbackPerLoss | lib/network/serverrpcwrapper.cpp:96-130 | over whole runs, exactly when that never happens; then the callback reports just real losses |
| Handshake.StaleClose | lib/network/serverrpcwrapper.cpp:96-130 | otherwise the callback fires while the connection is up |
| TaskQueue.StrictWeakOrder | lib/core/taskqueue.h:19-28 | the comparator is a strict weak order, and the two operators mirror each other |
| TaskQueue.TopIsLatest | lib/core/taskqueue.h:19-53 | a top has the lowest priority number and the latest time; of one priority it is due exactly when all are |
| TaskQueue.TaskQueue.TopIndex | lib/core/taskqueue.cpp:21 | finds a top |
| TaskQueue.TaskQueue.Schedule | lib/core/taskqueue.h:41-49 | adds the job and loses none |
| TaskQueue.TaskQueue.Dequeue | lib/core/taskqueue.cpp:11-31 | starts the first job that is a top and due when looked at, out of everything scheduled by then; at every look before, the top was not due |
| TaskQueue.LookAndFinish | lib/core/taskqueue.cpp:11-38 | a look starts the top exactly when it is due, else waits for it; a finished task is done |
| TaskQueue.TasksRunOnceAndNotEarly | lib/core/taskqueue.cpp:11-38 | each job asked for, with its time and priority, is pending, running or done, in one place only; nothing starts twice or before its time, with any number of workers |
| TaskQueue.EmptyTopIffTwoWorkers | lib/core/taskqueue.cpp:3-31 | some run reads the top of an empty queue exactly when there are two workers or more |
| TaskQueue.DueTaskWaits | lib/core/taskqueue.h:19-23 | a due job stays below a later one |
| Readings.CallerController.SetLocalReadings | lib/network/controllers/groupcontroller.cpp:162-182 | for a count above the stored one it stores it, queues the room and has the timer running; otherwise, and for an unknown room, it changes nothing; no other counter changes |
| Readings.CallerController.OnTimeout | lib/network/controllers/groupcontroller.cpp:33-50 | reports the stored count of every queued room and empties the queue |
| Readings.StoredAsSubmitted | lib/network/controllers/groupcontroller.cpp:172-176 | a raising count is stored as it is exactly below 2^31 |
| Readings.BatchingDeliversTheMaximum | lib/network/controllers/groupcontroller.cpp:33-182 | a room's counter is throughout the largest count submitted exactly when all of those fit an int; then waiting reports mean an active timer, and after a drain the server has that largest count |
| CallGrid.IsPrime | app/qml/CallParticipantView.qml:205-211 | true exactly for primes above two |
| CallGrid.Pass | app/qml/CallParticipantView.qml:219-228 | one pass keeps the pair of least error among the divisors up to its limit, the first of equals |
| CallGrid.CaclWidth | app/qml/CallParticipantView.qml:212-248 | a divisor pair of n, or of n + 1 for a prime, of least error among all pairs looked at, or one cell when none has an error below the initial bound |
| CallGrid.GridIsClosest | app/qml/CallParticipantView.qml:212-248 | no grid of n places that fits the box, or of n + 1 for a prime, is closer to the shape of the box than the one returned; a single cell only when all are off by the initial bound |
| CallGrid.TieGoesToTheFirst | app/qml/CallParticipantView.qml:219-243 | of equally close grids the one of n places and then of the shorter row is returned |
| CallGrid.ExactGrid | app/qml/CallParticipantView.qml:212-248 | a grid of n places that fits and has exactly the shape of the box is the one returned |
| CallGrid.OneBestGrid | app/qml/CallParticipantView.qml:212-248 | the inputs determine the grid |
| CallGrid.GridFitsCells | app/qml/CallParticipantView.qml:212-248 | n places, or n + 1 for a prime above two, exactly when n is one or some pair is acceptable; then no row is longer than fits |
| CallGrid.FlatBox | app/qml/CallParticipantView.qml:212-228 | a box without height gets one cell, whatever the number of participants |
| CallGrid.WhenAPairIsAcceptable | app/qml/CallParticipantView.qml:214-242 | some pair is acceptable exactly when a cell fits in a row and the box is not wider than the widest pair by the initial bound |
| CallGrid.WhenTheGridHasThePlaces | app/qml/CallParticipantView.qml:212-248 | on the inputs, n places, or n + 1 for a prime above two, exactly when n is one, or the box has a height, is one cell wide, and is not wider than that |

## Left out

- The payload of a slot and the `shared_ptr` around it: the pipe proofs are about slots, permits and listeners.
- `DataPipe::reset`, `lock`, `unlock` and `storedData`: they go round the protocol.
- Two threads publishing into one pipe at once: excluded by assumption.
- RpcClient.NetworkCoordinator.Turn: the wait itself, the sleep between attempts and shutdown are not modelled; the connection's state is an input.
- Continuations of a reply that run under the wrapper's mutex and take the coordinator's, as that of a login does: LockOrder has the closed handler only.
- RpcClient.SettledAtMostOnce: shutdown with calls still waiting is not modelled.
- The audio track's handler, which goes on without a slot after an overflow: that is undefined behaviour in the source; the video handler is the one modelled.
- The demuxers, which release their input once per packet read: they meet the pipe's obligation only when one read empties the input.
- Closing a sink, stopping a decoder and resetting the message history (which leaves a page on its way without a room): the slots and requests in flight are abandoned there.
- Message fields other than id, author, body, time and index, and the roles and signals of the Qt model: copied, not computed with.
- The JSON encoders, the reply codec and the client-side method handlers: field copying.
- The view's triggers for loading a page, and loads that overlap: one load at a time is modelled.
- Server updates that overwrite read counters, and rooms that are removed: they end the batching argument.
- Rounding in the grid search: the proofs are over real numbers.
- RowIndex.IdentifyingModel.SetById: an id that is in the index and not a row number is undefined behaviour in the source, and is excluded.
- Cameras, microphones, encoders, peer connections, windows and settings.
