# VirtualUSBDevice: a verified model

`VirtualUSBDevice` pretends to be a USB device. It talks the USB/IP protocol over a socket with the
kernel's virtual host controller: a read thread queues the commands that arrive, callers of `read` handle
them and receive the data of OUT transfers, callers of `write` supply the data of IN transfers, and a write
thread sends the replies. This project models that library in Dafny and proves what it promises.

    dafny verify dfyconfig.toml

## Layout

| file | what it is about |
|---|---|
| `Endian.dfy`, `UsbIp.dfy`, `Sockets.dfy` | the wire: byte order, message layouts, and the loops around `recv` and `send` |
| `Usb.dfy`, `StringDescriptor.dfy` | standard requests, descriptors, and strings from encoder to client |
| `CommandKinds.dfy` | what a command is, told from its bytes with every constant as a number, and that the code's tests agree |
| `Engine.dfy` | what each locked operation does to the device's state, as functions, and the runs they form |
| `VirtualUSBDevice.dfy` | the device as a class, each method proved against its function in `Engine.dfy` |
| `Pipes.dfy`, `Lanes.dfy`, `Runs.dfy` | matching commands with data on one endpoint; its invariants; the invariants of the whole device |
| `Requests.dfy` | the replies to standard requests, and the active configuration over a run |
| `Accounting.dfy`, `Promises.dfy`, `Writer.dfy` | the main theorems about bytes, commands, unlinks, reads, and the stream of replies |
| `Shutdown.dfy` | start, reset and both threads as a step system |
| `Options.dfy` | optional values, shared by the others |
| `RingBuffer.dfy`, `HashInts.dfy` | the circular buffer and the FNV-1a hash |
| `Ownership.dfy`, `RefCounted.dfy`, `Uniqued.dfy` | reference counting and unique ownership over any series of operations |

## How the device is modelled

- A run of the device is any sequence of locked steps: a command arrives, a command is handled, `write` is
  called, the write thread takes a reply, the device is reset. Theorems about runs hold for every such
  sequence, so for every scheduling of the threads. `History` records what the state no longer shows and
  is never read by an operation; `Promises.HistoryIsTrace` says that it is what passed through the
  interface.
- An exception is an outcome of its own. The command whose handling throws is dropped, the device has
  failed, and after that no command is handled, no data accepted and no reply taken to be sent. The claims
  about command handling are about what was handled before.
- A socket carries a script that says how many bytes each call moves, and where it is interrupted or
  breaks. Contracts hold for every script. A script is finite, so interruptions by signals are too.
- Both byte orders of the host are modelled, by a Boolean parameter. `size_t` has 64 bits.
- Negative values of `transfer_buffer_length` are kept as the code has them: converted to `size_t`, they
  are huge. For an IN command that means no limit. For an OUT command it is a length that no allocation
  serves, so reading the command fails.
- Endpoint numbers are cut to their low byte before they are checked, as in the code.
- Theorems that speak of a command by its sequence number require that submits have distinct ones, which
  is the host's duty; `Accounting.EveryCommandAccounted` does without. Theorems about parsing the replies
  require that no single write reaches 2^31 bytes, since `actual_length` could not count them:
  `Writer.FramedReply` says that this is exactly the condition.
- A call of `read` that waits has let go of the lock. What others do during each of its waits, and whether
  the wait times out, is given to the call as a list; contracts hold for every list, and a call whose list
  is used up has not returned yet. Real time is not modelled, so any wait may time out.
- In the step system of `Shutdown.dfy` a step is one region under the lock or one socket call. Sleeping on
  the condition variable, notifications and spurious wake-ups are explicit.

## What turned out not to hold

- **Some resets never finish.** A reset waits for both running flags to be cleared. The read and the write
  thread clear their flags only after `_reset`, so when one of them begins the reset, it waits for itself:
  that happens when the host closes the connection, or a socket call fails, and a worker is the first to
  notice (`Shutdown.HostDisconnectHangs` gives a run). `start` sets both flags before it creates the threads,
  so when a thread cannot be created, its reset waits for a flag that no one will clear
  (`Shutdown.StartHangs`). In both cases the socket is never closed and no later `stop` helps. These are all:
  once a reset has begun with the socket open, the socket can still be closed if and only if an API caller
  began the reset and every running flag that is set belongs to a thread that was created
  (`Shutdown.ClosableIff`).
- **`stop` and the destructor may return while the workers run.** They return at once when another thread's
  reset is still under way, though the workers refer to the device. `Shutdown.StopPromise` has the exact
  condition, `Shutdown.SecondStopReturnsEarly` a run.
- **The device descriptor is served with the wrong length.** The number of bytes comes from the
  configuration descriptor with the requested index, which is not checked either. The reply is right if and
  only if that configuration exists and its total length, capped to `wLength`, equals the device
  descriptor's own length, capped alike (`Usb.DeviceDescriptorServed`); with a 67-byte configuration and
  `wLength` 64 it is not (`Usb.DeviceDescriptorTooLong`).
- In `RingBuffer`, the second segment of a copy never reaches the end of the buffer: the test for it after
  that segment is dead code. The proofs of `CopyOut` and `CopyIn` show it.

## Model

| member | source | states |
|---|---|---|
| Endian.StoreBig | LIB/Toastbox/Endian.h:16-28 | a word converted by `BFH` and stored by a host of either byte order lies in memory in big-endian order |
| Endian.LoadBig | LIB/Toastbox/Endian.h:16-28 | `HFB` of a loaded big-endian word is its value, and loading loses none of its bytes, on either host |
| Endian.StoreLittle | LIB/Toastbox/Endian.h:11-14 | a 16-bit unit converted by `LFH` and stored lies in memory in little-endian order |
| Endian.LoadLittle | LIB/Toastbox/Endian.h:11-14 | `HFL` of a loaded little-endian unit is its value, without loss, on either host |
| Endian.BigEndianBytes | LIB/Toastbox/Endian.h:16-28 | the first byte of a word in big-endian order is its most significant one, and so on |
| Endian.LittleEndianUnit | LIB/Toastbox/Endian.h:11-14 | a unit loaded through `HFL` has its first byte as the low one, on either host |
| Endian.SignedWord | VirtualUSBDevice.cpp:504-504 | a length survives its conversion to the 32-bit `actual_length` if and only if it is below 2^31 |
| UsbIp.CommandFraming | USBIP.h:74-124 | decoding yields a command and a rest if and only if the command is valid and the stream is its layout followed by the rest |
| UsbIp.CommandStream | VirtualUSBDevice.cpp:278-328 | repeated decoding of the concatenated layouts of valid commands gives back exactly that list, on either host |
| UsbIp.CommandStreamUnique | USBIP.h:74-124 | two lists of valid commands with the same bytes are the same list |
| UsbIp.CommandBytes | USBIP.h:74-124 | the bytes of a command, word by word with every constant as a number, and that direction 0 is the one with a payload |
| UsbIp.SentLayout | VirtualUSBDevice.cpp:495-528 | the header as stored through `BFH`, followed by the payload, is the protocol's layout of the reply, on either host |
| UsbIp.ReplyBytes | VirtualUSBDevice.cpp:495-528 | the 48 bytes sent for a reply, word by word with every constant as a number: the codes 3 and 4, the command's base, the status, the length, and zeros |
| UsbIp.ReplyStream | VirtualUSBDevice.cpp:448-449 | the bytes sent for a list of framed replies parse back into exactly that list |
| UsbIp.PartialReplyStream | VirtualUSBDevice.cpp:448-449 | any prefix of those bytes parses into a prefix of the list |
| Sockets.Read | VirtualUSBDevice.cpp:240-257 | reads exactly the next `len` bytes however `recv` splits them; on a socket that does not break it succeeds if and only if the stream is long enough |
| Sockets.Write | VirtualUSBDevice.cpp:259-276 | sends all bytes in order however `send` splits them, or a prefix of them when the socket breaks |
| Sockets.ReadCmd | VirtualUSBDevice.cpp:278-328 | consumes and returns exactly the command that the stream starts with; without a break it fails only where decoding does |
| Sockets.ReadLoop | VirtualUSBDevice.cpp:391-401 | what the read thread queues is a prefix of the commands sent, and all of them if the socket does not break |
| Sockets.SendLoop | VirtualUSBDevice.cpp:428-450 | what is on the wire is a prefix of the replies in order, and all of them if the socket does not break |
| Sockets.SendToPeer | VirtualUSBDevice.cpp:428-450 | the peer parses what was sent into a prefix of the framed replies, and into all of them if the socket does not break |
| Usb.RequestFields | VirtualUSBDevice.cpp:218-231 | of the setup bytes, byte 0 is the request type, 1 the request, 2 the index or value, 3 the descriptor kind, and 6 and 7 are the length, low byte first, on either host |
| Usb.DescriptorFields | VirtualUSBDevice.cpp:356-380 | of a configuration descriptor, bytes 2 and 3 are the total length, low byte first, 5 the value, and bit 6 of byte 7 says self-powered, on either host |
| Usb.DescriptorServed | VirtualUSBDevice.cpp:715-768 | in terms of the setup bytes: configuration, string and qualifier descriptors are served up to the length asked for; a bad index is an exception; a missing or unknown descriptor is answered without data |
| Usb.DeviceDescriptorServed | VirtualUSBDevice.cpp:724-728 | the device descriptor is served correctly if and only if the configuration of that index exists and its capped length happens to agree |
| Usb.DeviceDescriptorTooLong | VirtualUSBDevice.cpp:724-728 | a request for which the device descriptor is not served as asked |
| Usb.FindConfig | VirtualUSBDevice.cpp:776-784 | the first configuration with the value asked for, or none if there is none |
| CommandKinds.StandardIs | VirtualUSBDevice.cpp:555-565 | a standard request is a submit to endpoint 0 with bits 5 and 6 of setup byte 0 clear |
| CommandKinds.KindIs | VirtualUSBDevice.cpp:580-596 | of the other submits, those with direction 1 are parked, and those with direction 0 handed to the user |
| CommandKinds.EndpointIs | VirtualUSBDevice.cpp:598-619 | a command's endpoint is the low byte of its number |
| CommandKinds.EndpointOfNumber | VirtualUSBDevice.cpp:598-619 | a command that names endpoint k, as a byte, belongs to endpoint k |
| CommandKinds.WriteIndexOfAddress | VirtualUSBDevice.cpp:175-180 | `write` to address 0x80 + k, k below 16, is to endpoint k |
| CommandKinds.XferCarries | VirtualUSBDevice.cpp:598-612 | the transfer for an OUT submit has its payload, its endpoint address, and for endpoint 0 the request read from its setup bytes |
| Requests.StatusServed | VirtualUSBDevice.cpp:701-713 | GetStatus (0) is answered with the bytes of a little-endian word whose bit 0 is bit 6 of byte 7 of the active configuration; without one it is an exception |
| Requests.ConfigurationSelected | VirtualUSBDevice.cpp:770-832 | SetConfiguration (9) is accepted if and only if a configuration has setup byte 2 as its byte 5 and an OUT request carries no data; it selects the first such one |
| Requests.RejectedIff | VirtualUSBDevice.cpp:684-836 | in terms of the bytes, exactly when a standard request is rejected: recipient, direction, request code, data, configuration or descriptor |
| Requests.StandardReply | VirtualUSBDevice.cpp:684-836 | an accepted standard request queues exactly one reply, with the data chosen and its length; a rejected one queues none |
| Requests.DescriptorReply | VirtualUSBDevice.cpp:715-768 | in terms of the setup bytes: the reply to a request for an existing configuration, string or qualifier descriptor carries its first bytes up to the length asked for, and their number |
| Requests.ActiveConfiguration | VirtualUSBDevice.cpp:770-830 | in every reachable state the active configuration is the one that the last handled SetConfiguration asked for in setup byte 2 |
| VirtualUSBDevice.VirtualUSBDevice.constructor | VirtualUSBDevice.cpp:23-40 | the first device of a process starts with empty queues, no configuration and no error |
| VirtualUSBDevice.VirtualUSBDevice.Reply | VirtualUSBDevice.cpp:469-534 | queues one reply to the command, with a payload exactly for IN submits, and changes nothing else |
| VirtualUSBDevice.VirtualUSBDevice.ServeFront | VirtualUSBDevice.cpp:631-647 | one round of the matching loop on the two queues of an endpoint |
| VirtualUSBDevice.VirtualUSBDevice.SendDataForInEndpoint | VirtualUSBDevice.cpp:625-649 | the loop leaves the queues and replies that `Drain` describes, and no other endpoint changes |
| VirtualUSBDevice.VirtualUSBDevice.HandleCmdSubmitEPXIn | VirtualUSBDevice.cpp:614-623 | parks the command behind those of its endpoint and matches; throws without a change for a bad endpoint |
| VirtualUSBDevice.VirtualUSBDevice.HandleCmdSubmitEPXOut | VirtualUSBDevice.cpp:598-612 | replies with the length received and hands over the payload; throws without a change for a bad endpoint |
| VirtualUSBDevice.VirtualUSBDevice.CancelParked | VirtualUSBDevice.cpp:658-675 | removes the first parked command with the sequence number, over all endpoints, and says whether there was one |
| VirtualUSBDevice.VirtualUSBDevice.HandleCmdUnlink | VirtualUSBDevice.cpp:651-681 | cancels the target if it is parked and queues the reply that says so |
| VirtualUSBDevice.VirtualUSBDevice.SelectConfiguration | VirtualUSBDevice.cpp:773-784 | the search loop finds the first configuration with the value |
| VirtualUSBDevice.VirtualUSBDevice.ChooseDescriptor | VirtualUSBDevice.cpp:715-768 | the branches of GetDescriptor choose what `Usb.GetDescriptor` says, which `Usb.DescriptorServed` is about |
| VirtualUSBDevice.VirtualUSBDevice.DecideStandard | VirtualUSBDevice.cpp:684-836 | the outcome of a standard request, by direction and request code |
| VirtualUSBDevice.VirtualUSBDevice.HandleStandardRequest | VirtualUSBDevice.cpp:684-836 | selects the configuration and queues the reply, or throws without a change |
| VirtualUSBDevice.VirtualUSBDevice.HandleCmd | VirtualUSBDevice.cpp:536-596 | dispatches on command, endpoint, request type and direction; throws without a change to the queues |
| VirtualUSBDevice.VirtualUSBDevice.HandleNext | VirtualUSBDevice.cpp:154-165 | takes the next command and handles it; when that throws, the command is gone and the device has failed |
| VirtualUSBDevice.VirtualUSBDevice.ReadQueue | VirtualUSBDevice.cpp:123-161 | what `read` does before it returns or waits: the state and transfer that `Engine.ReadNow` describes; it terminates |
| VirtualUSBDevice.VirtualUSBDevice.LetOthers | VirtualUSBDevice.cpp:143-149 | while a call waits, the other threads' steps change the device as they do otherwise |
| VirtualUSBDevice.VirtualUSBDevice.Read | VirtualUSBDevice.cpp:118-173 | for every timeout and whatever others do during its waits, the state and answer that `Engine.ReadWaiting` describes, which `Promises.ReadReturns` is about; after an error it throws if and only if the device is to throw |
| VirtualUSBDevice.VirtualUSBDevice.Write | VirtualUSBDevice.cpp:175-210 | queues the data on its endpoint and matches; after an error it changes nothing, and throws if and only if the device is to throw |
| VirtualUSBDevice.VirtualUSBDevice.QueueCmd | VirtualUSBDevice.cpp:397-400 | the read thread appends a command |
| VirtualUSBDevice.VirtualUSBDevice.DequeueReply | VirtualUSBDevice.cpp:430-446 | the write thread takes the oldest reply, unless there is an error or none |
| Pipes.DrainConserves | VirtualUSBDevice.cpp:625-649 | the bytes in the replies of one matching loop, then those still queued, are the bytes that were queued |
| Pipes.ServedFills | VirtualUSBDevice.cpp:635-639 | a reply has as many bytes as its command asks for, or all that is left of the data if that is less |
| Pipes.DrainOrder | VirtualUSBDevice.cpp:625-649 | commands are answered from the front of the queue; those answered, then those left, are those that were queued |
| Pipes.DrainStops | VirtualUSBDevice.cpp:625-649 | afterwards one of the queues is empty, and only the front item may be partly sent, with something left |
| Pipes.DrainEarly | VirtualUSBDevice.cpp:625-649 | matching before more commands and data are queued gives in the end what matching once gives |
| Pipes.WriteIsCut | VirtualUSBDevice.cpp:631-648 | enough commands for `m` bytes each cut one item of data into its length divided by `m`, rounded up, pieces |
| Pipes.NoMixing | VirtualUSBDevice.cpp:631-648 | each reply of a matching loop carries a slice of a single queued item |
| Lanes.ParkKeeps | VirtualUSBDevice.cpp:614-623 | parking a command keeps an endpoint's invariant: bytes conserved, commands accounted for and in order, nothing mixed, one queue empty, the result independent of interleaving |
| Lanes.WriteKeeps | VirtualUSBDevice.cpp:187-198 | so does a write |
| Lanes.CancelKeeps | VirtualUSBDevice.cpp:658-675 | so does cancelling any parked command |
| Lanes.ExactlyOnePlace | VirtualUSBDevice.cpp:614-681 | a command submitted to an endpoint is answered, waiting or cancelled: exactly one of these, exactly once |
| Lanes.OrderDecides | VirtualUSBDevice.cpp:175-198 | without unlinks, an endpoint's replies and queues are a function of the order of its commands and the order of its writes |
| Runs.StepKeeps | VirtualUSBDevice.cpp:118-210 | every locked step keeps the invariants of all endpoints and the books of the device |
| Runs.RunInv | VirtualUSBDevice.cpp:469-681 | they hold in every reachable state: replies answer their commands, header and payload agree, parked commands belong to their endpoint |
| Accounting.ByteConservation | VirtualUSBDevice.cpp:189-198 | in every reachable state, an endpoint's reply payloads in order, then its unsent data, are everything written to it, also when there are unlinks |
| Accounting.EveryReplyFromOneWrite | VirtualUSBDevice.cpp:631-648 | in every reachable state no reply mixes the bytes of two writes |
| Accounting.OnIs | VirtualUSBDevice.cpp:614-623 | the commands that the theorems count for endpoint i are the submits with direction 1 that name it and are no standard requests |
| Accounting.WaitsAtItsEndpoint | VirtualUSBDevice.cpp:614-623 | in every reachable state a parked command waits at the endpoint it names |
| Accounting.WrittenToItsEndpoint | VirtualUSBDevice.cpp:175-196 | data written to address 0x80 + k is written to endpoint k |
| Accounting.WriteAnswers | VirtualUSBDevice.cpp:175-198 | a write of L bytes to address 0x80 + k, with commands waiting at endpoint k for m bytes each, answers the first L/m of them, rounded up, in order, with m bytes each and the rest in the last |
| Accounting.NeverTooMuch | VirtualUSBDevice.cpp:635-639 | in every reachable state no reply has more bytes than its command asked for |
| Accounting.NothingUnsentWhileWaiting | VirtualUSBDevice.cpp:630-648 | while a command waits, no data is queued on its endpoint and everything written to it has been sent |
| Accounting.MatchedOnce | VirtualUSBDevice.cpp:175-198 | without unlinks, replies and queues are those of queueing all commands and writes and running the loop once |
| Accounting.InterleavingIndependence | VirtualUSBDevice.cpp:614-649 | two runs that agree on the order of an endpoint's commands and on that of its writes agree on its replies and queues |
| Accounting.SubmitAccounting | VirtualUSBDevice.cpp:469-681 | a handled submit has exactly one RET_SUBMIT, or is parked exactly once, or was cancelled exactly once, and only one of these |
| Accounting.EveryCommandAccounted | VirtualUSBDevice.cpp:469-681 | also with repeated sequence numbers, a command was answered, is parked and was cancelled as often in sum as it was handled |
| Accounting.AnsweredInOrder | VirtualUSBDevice.cpp:625-681 | an endpoint's commands, without the cancelled ones, are the answered ones in order followed by the waiting ones in order |
| Promises.UnlinkStep | VirtualUSBDevice.cpp:651-681 | an unlink queues one reply, which says whether its target was parked, and cancels exactly that target |
| Promises.StatusOfCancelled | VirtualUSBDevice.cpp:679-679 | the status of a cancelled command is -104 |
| Promises.CancelledNeverAnswered | VirtualUSBDevice.cpp:651-681 | a cancelled command has no RET_SUBMIT in any reachable state |
| Promises.HandledWasAnswered | VirtualUSBDevice.cpp:469-681 | a handled submit that is neither parked nor cancelled has its one RET_SUBMIT |
| Promises.UnlinkAgreement | VirtualUSBDevice.cpp:536-681 | the USB/IP unlink rule: -ECONNRESET exactly when the target was parked, and then no RET_SUBMIT for it ever; else 0, and the RET_SUBMIT of a target handled and not cancelled precedes this reply |
| Promises.RunGrows | VirtualUSBDevice.cpp:532-532 | what has been queued, handled or cancelled stays so, whatever happens next |
| Promises.FailedIff | VirtualUSBDevice.cpp:839-845 | the device has failed if and only if it was reset, or handling a command has thrown |
| Promises.QuietAfterFailure | VirtualUSBDevice.cpp:118-210 | from then on nothing changes, except that arriving commands are queued |
| Promises.HandleReturns | VirtualUSBDevice.cpp:536-612 | handling a command returns a transfer if and only if it is an OUT submit that is not a standard request and nothing threw; the transfer carries the command's payload, address and request |
| Promises.HandleThrows | VirtualUSBDevice.cpp:536-681 | handling throws if and only if the endpoint does not exist, the direction is invalid, or a standard request is rejected; then queues and configuration are unchanged |
| Promises.ReadHandlesPrefix | VirtualUSBDevice.cpp:118-161 | `read` with a zero timeout handles the queue up to and including the first command that delivers a transfer, or all of it |
| Promises.ReadReturns | VirtualUSBDevice.cpp:118-173 | whatever others do while it waits, a call of `read` returns the transfer of the command handled last, or fails after an error; it returns nothing only after a wait that timed out, or with a zero timeout for lack of commands; while it still waits the queue was empty and there was no error |
| Promises.ReadLooksAgain | VirtualUSBDevice.cpp:123-152 | a call that still waits looks again after its next wait unless that times out; one that has returned stays so |
| Promises.DataEndsRead | VirtualUSBDevice.cpp:123-161 | a look that finds a command with data for the user ends the call with a transfer, unless a command throws |
| Promises.ReadIsSteps | VirtualUSBDevice.cpp:118-173 | such a call is a series of steps of a run, so what holds in every reachable state holds before and after it |
| Promises.HistoryIsTrace | VirtualUSBDevice.cpp:118-210 | the histories are the commands that arrived, the data accepted and the transfers returned |
| Promises.OutDeliveredOnce | VirtualUSBDevice.cpp:598-612 | the k-th transfer returned carries the payload, address and request of the k-th handled OUT submit, for all of them; the replies to these come in the same order and count their payloads |
| Writer.WireInvAlways | VirtualUSBDevice.cpp:419-450 | while the write thread sends in pieces without the lock, bytes sent and pending are those of the replies taken |
| Writer.WirePrefix | VirtualUSBDevice.cpp:419-450 | in every state of every interleaving the wire holds a prefix of the serialised reply log, and all of it once nothing is left to send |
| Writer.FramedReply | VirtualUSBDevice.cpp:483-523 | a queued reply's header counts its payload if and only if the payload is below 2^31 bytes |
| Writer.PeerReadsReplies | VirtualUSBDevice.cpp:419-534 | the peer parses the wire into a prefix of the reply log at every moment, and into all of it once nothing is left to send |
| Shutdown.StepKeeps | VirtualUSBDevice.cpp:382-466 | every step of every thread keeps the invariant that ties flags, threads, descriptors, the initiator of the reset and sleepers together |
| Shutdown.RunInv | VirtualUSBDevice.cpp:839-875 | it holds in every reachable state |
| Shutdown.DescriptorSafety | VirtualUSBDevice.cpp:384-389 | a worker's copy of the socket is open and was never closed while it can be used; no descriptor is closed twice |
| Shutdown.ClosedAfterWorkers | VirtualUSBDevice.cpp:858-874 | after `start`, a descriptor is closed only in a step that finds both running flags cleared and no copy in use |
| Shutdown.OpenedAndClosed | VirtualUSBDevice.cpp:72-115 | every descriptor that `start` opened is closed once and no other is: both at once if it fails early, else the second at once and the first when the socket field is cleared; what is open is what the fields hold |
| Shutdown.StepKeepsQueues | VirtualUSBDevice.cpp:382-466 | what each step of each thread adds to and takes from the queues, and that only calls of `_reset` set the error, to the cause they give |
| Shutdown.QueuesBalance | VirtualUSBDevice.cpp:382-466 | in every reachable state commands pushed are those taken and those queued, replies queued are those begun and those left, and the error is the cause given with the first `_reset` |
| Shutdown.ErrIsFirstCause | VirtualUSBDevice.cpp:841-845 | once set, `_s.err` keeps its cause forever |
| Shutdown.LoadFalls | VirtualUSBDevice.cpp:391-463 | in a reset begun by a caller, each step of a worker or of that caller lowers a measure that no other step raises, until the socket is closed |
| Shutdown.NeverStuck | VirtualUSBDevice.cpp:391-463 | until then some such step is possible |
| Shutdown.ShutdownTerminates | VirtualUSBDevice.cpp:839-882 | hence only so many such steps can be taken before the socket is closed, whatever the other steps do |
| Shutdown.PathToClosed | VirtualUSBDevice.cpp:839-882 | and such steps do lead to a state with the socket closed and no descriptor open |
| Shutdown.ClosedMeansGone | VirtualUSBDevice.cpp:858-874 | with the socket closed after `start`, both workers are gone |
| Shutdown.HungForGood | VirtualUSBDevice.cpp:403-412 | a reset begun by a worker, or waiting for a thread that was not created, never ends, and the socket stays open, whatever anyone does |
| Shutdown.ClosableIff | VirtualUSBDevice.cpp:858-862 | once a reset has begun with the socket open, it can still be closed if and only if an API caller began the reset and every running flag that is set belongs to a thread that was created |
| Shutdown.StartHangs | VirtualUSBDevice.cpp:102-109 | a `start` that cannot create one of its threads never returns and its socket is never closed, however the run goes on |
| Shutdown.ThreadlessStartHangs | VirtualUSBDevice.cpp:102-109 | a run of one step in which the second thread is not created |
| Shutdown.HostDisconnectHangs | VirtualUSBDevice.cpp:402-412 | a run in which the host disconnects and the socket is never closed |
| Shutdown.BlockedReadsReturn | VirtualUSBDevice.cpp:127-147 | after a reset, a caller that waits in `read` can always wake up, and returns |
| Shutdown.StopPromise | VirtualUSBDevice.cpp:839-882 | a call of `stop` returns with both workers gone, the sockets closed and no descriptor open if and only if no reset had begun when it was called, or the sockets were closed by then |
| Shutdown.SecondStopReturnsEarly | VirtualUSBDevice.cpp:841-843 | a run in which a second `stop` returns while the workers still run |
| Shutdown.NoOneSleepsThroughWork | VirtualUSBDevice.cpp:430-441 | in every reachable state the write thread sleeps only without a queued reply, and a caller of `read` only without a queued command, and neither after a reset |
| Shutdown.QueuedReplyMoves | VirtualUSBDevice.cpp:428-450 | while a reply is queued and no reset has begun, the write thread can take a step |
| RingBuffer.RingBuffer.constructor | LIB/Toastbox/RingBuffer.h:107-110 | a new buffer is empty |
| RingBuffer.RingBuffer.Len | LIB/Toastbox/RingBuffer.h:11-16 | the number of elements held, within the range of `size_t` for any capacity |
| RingBuffer.RingBuffer.Space | LIB/Toastbox/RingBuffer.h:18-20 | the number of elements that still fit |
| RingBuffer.RingBuffer.CopyOut | LIB/Toastbox/RingBuffer.h:26-41 | the two segments read are the next elements in circular order |
| RingBuffer.RingBuffer.Read | LIB/Toastbox/RingBuffer.h:22-45 | takes the first `len` elements and leaves the others; with fewer elements nothing changes |
| RingBuffer.RingBuffer.CopyIn | LIB/Toastbox/RingBuffer.h:80-95 | the two segments written are the free places in circular order, and no other place changes |
| RingBuffer.RingBuffer.Append | LIB/Toastbox/RingBuffer.h:80-98 | appends, and is full exactly when the capacity is reached |
| RingBuffer.RingBuffer.Write | LIB/Toastbox/RingBuffer.h:53-58 | appends if there is space for all elements, otherwise nothing changes |
| RingBuffer.RingBuffer.MakeRoom | LIB/Toastbox/RingBuffer.h:68-77 | gives up exactly the oldest elements that the write replaces |
| RingBuffer.RingBuffer.WriteOver | LIB/Toastbox/RingBuffer.h:53-99 | leaves the last elements, up to the capacity, of the old contents followed by the input, whatever the input's length |
| RingBuffer.OverwritesKeepLast | LIB/Toastbox/RingBuffer.h:103-104 | however a stream is cut into overwriting writes, its last elements stay |
| HashInts.HashInts | LIB/Toastbox/HashInts.cpp:4-14 | the loop computes the state after all bytes; none for a length that is not positive |
| HashInts.LastRound | LIB/Toastbox/HashInts.cpp:8-12 | the state after a string and one more byte is one round from the state after the string |
| HashInts.RoundIs | LIB/Toastbox/HashInts.cpp:6-11 | a round is xor with the byte, then multiplication by 0x100000001b3, modulo 2^64 |
| HashInts.HashOfLetter | LIB/Toastbox/HashInts.cpp:4-14 | the published FNV-1a hash of "a" |
| HashInts.UndoTimes | LIB/Toastbox/HashInts.cpp:11-11 | multiplication by the prime modulo 2^64 has an inverse |
| HashInts.RoundInjective | LIB/Toastbox/HashInts.cpp:10-11 | when two rounds end in the same state, their states before agree if and only if their bytes do |
| HashInts.HashFromInjective | LIB/Toastbox/HashInts.cpp:8-12 | hashing the same bytes keeps different states different |
| HashInts.OneByteChangesHash | LIB/Toastbox/HashInts.cpp:4-14 | two strings of the same length that differ in exactly one byte have different hashes |
| Ownership.StepKeeps | LIB/Toastbox/RefCounted.h:12-61 | every operation keeps references taken minus references released equal to the slots that hold the object |
| Ownership.OwnershipConserved | LIB/Toastbox/RefCounted.h:12-61 | so in every run; once all slots are gone everything taken has been released |
| Ownership.HeldThroughout | LIB/Toastbox/RefCounted.h:22-27 | an object held before and after an operation has a reference at every moment of it, self-assignment included; no object ever has fewer than none |
| Ownership.FreedOnce | LIB/Toastbox/Uniqued.h:8-45 | a resource handed over once is freed at most once, is held by one slot until then and by none from then on |
| RefCounted.RefCounted.CopyAssign | LIB/Toastbox/RefCounted.h:22-27 | retains the new object, then releases the old one; the source may be the object itself |
| RefCounted.RefCounted.MoveAssign | LIB/Toastbox/RefCounted.h:31-36 | releases the old object and empties the source, also when that is the object itself |
| RefCounted.RefCounted.Reset | LIB/Toastbox/RefCounted.h:56-61 | releases what is held, once |
| RefCounted.Construct | LIB/Toastbox/RefCounted.h:12-29 | constructing an object does to a set of objects what `Ownership.Step` does to the slots |
| RefCounted.Operate | LIB/Toastbox/RefCounted.h:22-61 | so do assignment, reset and destruction |
| Uniqued.Uniqued.MoveAssign | LIB/Toastbox/Uniqued.h:19-24 | frees the old resource and empties the source, also when that is the object itself |
| Uniqued.Construct | LIB/Toastbox/Uniqued.h:9-17 | constructing an object does to a set of objects what `Ownership.Step` does to the slots |
| Uniqued.Operate | LIB/Toastbox/Uniqued.h:19-45 | so do move assignment, reset and destruction |
| StringDescriptor.StringDescriptorN.Blank | LIB/Toastbox/USB.h:173-174 | the descriptor that a client receives into has the given number of units, all zero |
| StringDescriptor.StringDescriptorN.constructor | LIB/Toastbox/USB.h:176-181 | the bytes of the descriptor are those of section 9.6.7 of the USB 2.0 specification, on either host and with either kind of `char` |
| StringDescriptor.StringDescriptorN.Receive | LIB/Toastbox/USBDevice.cpp:157-166 | the bytes received replace the front of the object, and `bLength` is their number |
| StringDescriptor.StringDescriptorN.AsciiString | LIB/Toastbox/USB.h:183-191 | the characters are the low bytes of the units that `bLength` covers, on either host |
| StringDescriptor.EncodedLength | LIB/Toastbox/USB.h:170-177 | `bLength` does not overflow for up to 126 characters |
| StringDescriptor.EncodedBytes | LIB/Toastbox/USB.h:176-181 | the bytes of a descriptor: its size, the type 3, and each character followed by 0, or by 0xFF where `char` is signed and the character from 0x80 on |
| StringDescriptor.StringRoundTrip | LIB/Toastbox/USB.h:167-191 | a string encoded, served for any positive `wLength` and decoded gives the characters that fit into that length |

## Left out

- VirtualUSBDevice.VirtualUSBDevice.Read: after an exception it marks the device as failed, but does not shut down the sockets and wait for the workers, as `_reset` does; that is in `Shutdown.dfy`.
- A second device in one process: `_s` is a global variable, so it would start with what the first one left there; the model has one device.
- Waiting, threads and the reset in the form of a class: they are a step system on values in `Shutdown.dfy`, since a method cannot be interleaved; the class in `VirtualUSBDevice.dfy` has the locked regions only.
- Termination of a reset begun by a worker, or by a `start` that could not create its threads: false, see above; such runs are in the safety theorems.
- The contents of exceptions: the model says whether a call throws, and the step system which cause is kept.
- Memory allocation failure, except for OUT commands of negative length.
- Reading outside a descriptor table or past a descriptor, which only the device descriptor's branch can do for well-formed tables: modelled as an exception, though the code would go on with what it finds.
- The `status` argument of `_reply` for submits: the code always sends 0, and so does the model, also where a descriptor is missing.
- `start` before it sets the running flags (port search, driver, `_SpeedFromBCDUSB`), and what it throws: the step system has five outcomes of a start, by how far it got; system calls, sysfs, udev and libusb are not part of this model.
- `SupportedLanguagesDescriptorN`: the same loop as for strings, over 16-bit units.
- `USBDevice.cpp` other than the use of a received string descriptor, including its endpoint numbering.
- The single-element overloads of `RingBuffer`, and `abort()` itself: the methods report that they would abort.
- Conversion operators and comparison of `RefCounted` and `Uniqued`: they change nothing.
- `Task`, `Defer`, `Enum`, `RuntimeError`, the constants of `Descriptor.h`, the demo in `main.cpp`, and the build files.
