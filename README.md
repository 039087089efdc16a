# J2534Connection: a verified model of a pass-thru channel

This project models the per-channel core of the panda's Windows J2534 driver
(`J2534Connection`). It covers the SAE J2534-1 calls PassThruReadMsgs and
PassThruWriteMsgs, PassThruStartPeriodicMsg/StopPeriodicMsg and
PassThruStartMsgFilter/StopMsgFilter. It also covers the buffer-clearing
ioctls and the GET_CONFIG/SET_CONFIG parameter table.

A connection owns these pieces of state:

- a receive queue of frames;
- a transmit queue of encoded actions;
- ten periodic-message slots;
- ten filter slots;
- the baud rate and the loopback flag.

Each call is a bounded update of that state and returns a J2534 status code.

Files:

- `j2534.dfy` (module `J2534`): status codes, ioctl parameter identifiers and
  the records. Numeric values follow SAE J2534-1 version 04.04.
- `slots.dfy` (module `Slots`): the "lowest empty slot" scan shared by the
  periodic and filter pools, as a loop and as its specification `FirstFree`.
- `filter_chain.dfy` (module `FilterChain`): the precedence rule "any block
  drops, else any pass admits, else drop", and its lemmas.
- `connection.dfy` (module `ConnectionModel`): the class `J2534Connection`.
  Its queues are `seq` fields the methods reassign. Its slot pools are two
  `array<Option<..>>` written in place.
- `scenarios.dfy` (module `Scenarios`): client methods on fresh connections.
  From the contracts alone they derive the outcomes a host sees: protocol
  mismatch, partial write, clear after write, empty read, interval bounds,
  slot exhaustion and reuse, duplicate filter, block precedence.

Collaborators outside the connection are constant fields, fixed when the
connection is built:

- `parseMessageTx` (the protocol encoder; `None` means null);
- `filterBuildError` (the error code the filter constructor throws, if any);
- `filterCheck` (a single filter's verdict);
- `sameFilter` (the filter comparison);
- the length limits `minMsgLen`, `maxMsgLen`, `maxMsgSingleFrameLen`.

Whether the shared device still exists (the weak pointer's `lock()`) is the
field `deviceAlive`. Calls made on the device and on periodic messages are
recorded, in order, in the ghost log `effects`.

Behaviours of the code that the model keeps as written:

- PassThruWriteMsgs encodes `*pMsg`, the first message, on every iteration
  (J2534Connection.cpp:76). Every action a batch queues is therefore the
  encoding of message 0.
- The write loop queues actions as it validates. Actions queued before the
  first bad message stay queued. The code does not validate the whole batch
  before queueing, so the model does not either.
- A read that yields no record reports ERR_BUFFER_EMPTY even when the timer
  stopped it. With a nonzero timeout, a partial read stopped by the timer
  reports ERR_TIMEOUT with the nonzero count. With a zero timeout, a partial
  read reports STATUS_NOERROR.
- PassThruStartPeriodicMsg returns STATUS_NOERROR and writes `*pMsgID` even
  when the encoding is null; the slot then stays empty.
- The duplicate test of PassThruStartMsgFilter compares `std::shared_ptr`
  values (J2534Connection.cpp:123). Here it is the abstract comparison
  `sameFilter`. Under plain pointer identity a freshly built filter equals
  no stored one, and ERR_NOT_UNIQUE could not occur. On a duplicate, the
  code nulls a slot that is already null.
- processIOCTLSetConfig runs its switch first and only then ends in
  NOT_SUPPORTED for a parameter at or above 0x20. In the J2534-1 numbering,
  T3_MAX (0x24) and ISO15765_WFT_MAX (0x25) are listed as "accept and
  ignore", yet they are above that threshold. They therefore end in
  NOT_SUPPORTED. No state changes in either case.
- processIOCTLGetConfig falls off the end for an unknown parameter. Its
  value is unspecified, which the model writes as `None`.
- clearTXBuff and clearRXBuff do nothing at all when the device is gone:
  the queue keeps its contents.

The timer of PassThruReadMsgs is the parameter `expiresAt`: the first loop
iteration on which the timer test reports expiry. Elapsed time only grows, so
once the test says "expired" it keeps saying so. That makes one number enough
to describe any run of the timer.

## Model

| member | source | states |
|---|---|---|
| `ConnectionModel.J2534Connection.constructor` | panda/drivers/windows/pandaJ2534DLL/J2534Connection.cpp:5-10 | A new connection keeps the given protocol, flags and baud rate. Both queues are empty and all ten periodic and ten filter slots are empty. |
| `ConnectionModel.J2534Connection.ValidateTxMsg` | panda/drivers/windows/pandaJ2534DLL/J2534Connection.cpp:12-16 | Returns STATUS_NOERROR exactly when DataSize lies in [min, max] length. Otherwise it returns ERR_INVALID_MSG. |
| `ConnectionModel.J2534Connection.CheckTxBatch` | panda/drivers/windows/pandaJ2534DLL/J2534Connection.cpp:63-80 | The batch outcome: every message before `accepted` passes both checks. If `accepted` < N, the status is the error of message `accepted`; otherwise the status is STATUS_NOERROR. |
| `ConnectionModel.J2534Connection.WriteMsgs` | panda/drivers/windows/pandaJ2534DLL/J2534Connection.cpp:61-81 | The count and status equal CheckTxBatch. ERR_MSG_PROTOCOL_ID means a protocol mismatch at the reported index. ERR_INVALID_MSG means the protocol matched there and the size was out of bounds. On success the count is unchanged. The TX queue grows by one encoding of the first message per accepted message, and only when that encoding is non-null and the device lives. One device registration is logged per push. |
| `ConnectionModel.J2534Connection.ScheduleMsgTx` | panda/drivers/windows/pandaJ2534DLL/J2534Connection.cpp:188-195 | When the device lives, the action is appended to the TX queue and one registration is logged. Otherwise nothing changes. |
| `ConnectionModel.J2534Connection.RescheduleExistingTxMsgs` | panda/drivers/windows/pandaJ2534DLL/J2534Connection.cpp:197-203 | When the device lives, logs one unstall request. Otherwise it does nothing. |
| `ConnectionModel.ReadCount` | panda/drivers/windows/pandaJ2534DLL/J2534Connection.cpp:23-53 | The number of records read is at most the number requested and at most the number queued. With a timeout it is at most the expiry iteration. Reading fewer than both can only happen because the timer expired. |
| `ConnectionModel.J2534Connection.ReadMsgs` | panda/drivers/windows/pandaJ2534DLL/J2534Connection.cpp:18-59 | Pops exactly ReadCount frames from the front of the RX queue, in FIFO order; the rest stays queued. Each record gets the connection's ProtocolID and TxFlags 0, and the frame's data, size, timestamp, RxStatus and ExtraDataIndex. With a zero timeout it reads min(requested, queued). Zero records means ERR_BUFFER_EMPTY, and only then is that status returned. A full read returns STATUS_NOERROR. A partial read returns ERR_TIMEOUT with a timeout and STATUS_NOERROR without one. |
| `ConnectionModel.J2534Connection.EvaluateFilters` | panda/drivers/windows/pandaJ2534DLL/J2534Connection.cpp:207-214 | The in-order walk over the filter slots, stopping at a block, admits the frame exactly when `Admits` holds: no active filter blocks it and some active filter passes it. |
| `ConnectionModel.J2534Connection.ProcessMessage` | panda/drivers/windows/pandaJ2534DLL/J2534Connection.cpp:206-219 | Appends the frame to the RX queue if and only if the filter chain admits it. Otherwise the queue is unchanged. |
| `FilterChain.BlockWins` | panda/drivers/windows/pandaJ2534DLL/J2534Connection.cpp:212 | One active filter that blocks the frame makes the chain drop it, whatever the other filters say. |
| `FilterChain.NoActiveFilterDrops` | panda/drivers/windows/pandaJ2534DLL/J2534Connection.cpp:207-218 | With every slot empty, no frame is admitted. |
| `FilterChain.AdmitsIgnoresSlotOrder` | panda/drivers/windows/pandaJ2534DLL/J2534Connection.cpp:209-216 | Two slot arrays holding the same filters in any arrangement give the same verdict. The verdict does not depend on which slots hold the blocking or passing filters. |
| `Slots.FirstFree` | panda/drivers/windows/pandaJ2534DLL/J2534Connection.cpp:90-91 | The lowest empty index: that slot is empty and all below it are occupied. The result is `None` exactly when every slot is occupied. |
| `Slots.LowestFreeIs` | panda/drivers/windows/pandaJ2534DLL/J2534Connection.cpp:117-118 | An empty slot below which every slot is occupied is exactly the index FirstFree returns. |
| `Slots.FindFreeSlot` | panda/drivers/windows/pandaJ2534DLL/J2534Connection.cpp:90-104 | The scanning loop returns FirstFree of the slot array. |
| `ConnectionModel.J2534Connection.PeriodicCheck` | panda/drivers/windows/pandaJ2534DLL/J2534Connection.cpp:86-88 | The result is STATUS_NOERROR exactly when the size is in [min, max single-frame], the protocol matches and the interval is in [5, 65535]. A bad size gives ERR_INVALID_MSG regardless of the other checks. With a good size, a protocol mismatch gives ERR_MSG_PROTOCOL_ID. With a good size and protocol, an interval outside [5, 65535] gives ERR_INVALID_TIME_INTERVAL. |
| `ConnectionModel.J2534Connection.StartPeriodicMsg` | panda/drivers/windows/pandaJ2534DLL/J2534Connection.cpp:85-105 | A failed check returns its error and changes nothing. If every slot is full it returns ERR_EXCEEDED_LIMIT and changes nothing. Otherwise `*pMsgID` is the lowest empty slot and the status is STATUS_NOERROR. Only that slot changes. It gets the periodic message (interval × 1000 µs), or stays empty when the encoding is null. Scheduling, and task-list insertion when the device lives, are logged. |
| `ConnectionModel.J2534Connection.StopPeriodicMsg` | panda/drivers/windows/pandaJ2534DLL/J2534Connection.cpp:107-113 | An out-of-range or empty id returns ERR_INVALID_MSG_ID and changes nothing. Otherwise that message is cancelled (logged), exactly that slot becomes empty and the status is STATUS_NOERROR. |
| `ConnectionModel.J2534Connection.ClearPeriodicMsgs` | panda/drivers/windows/pandaJ2534DLL/J2534Connection.cpp:170-178 | Afterwards every slot is empty. Each previously scheduled message was cancelled once, in slot order. |
| `ConnectionModel.J2534Connection.HasDuplicate` | panda/drivers/windows/pandaJ2534DLL/J2534Connection.cpp:121-127 | The scan reports a duplicate exactly when some active filter compares equal to the new one. |
| `ConnectionModel.J2534Connection.StartMsgFilter` | panda/drivers/windows/pandaJ2534DLL/J2534Connection.cpp:115-137 | With no empty slot it returns ERR_EXCEEDED_LIMIT. If the filter constructor throws, it returns the thrown code. If the new filter equals an active one, it returns ERR_NOT_UNIQUE. These three cases change no slot. Otherwise `*pFilterID` is the lowest empty slot, only that slot is filled, and the status is STATUS_NOERROR. Pairwise-distinct active filters stay distinct. |
| `ConnectionModel.J2534Connection.StopMsgFilter` | panda/drivers/windows/pandaJ2534DLL/J2534Connection.cpp:139-144 | An out-of-range or empty id returns ERR_INVALID_FILTER_ID and changes nothing. Otherwise exactly that slot becomes empty. |
| `ConnectionModel.J2534Connection.ClearMsgFilters` | panda/drivers/windows/pandaJ2534DLL/J2534Connection.cpp:179-182 | Afterwards every filter slot is empty. |
| `ConnectionModel.J2534Connection.ClearTxBuff` | panda/drivers/windows/pandaJ2534DLL/J2534Connection.cpp:152-160 | When the device lives, the TX queue is emptied and exactly one TX flush is logged. Otherwise nothing changes. The status is always STATUS_NOERROR. |
| `ConnectionModel.J2534Connection.ClearRxBuff` | panda/drivers/windows/pandaJ2534DLL/J2534Connection.cpp:161-169 | When the device lives, the RX queue is emptied and exactly one RX flush is logged. Otherwise nothing changes. The status is always STATUS_NOERROR. |
| `ConnectionModel.J2534Connection.SetBaud` | panda/drivers/windows/pandaJ2534DLL/J2534Connection.cpp:184-186 | The baud rate becomes the given value. |
| `ConnectionModel.J2534Connection.ProcessIoctlGetConfig` | panda/drivers/windows/pandaJ2534DLL/J2534Connection.cpp:267-283 | Returns the baud rate for DATA_RATE, 1/0 for the loopback flag for LOOPBACK, 80 for BIT_SAMPLE_POINT and 15 for SYNC_JUMP_WIDTH. Any other parameter gives an unspecified value (`None`). |
| `ConnectionModel.J2534Connection.ProcessIoctlSetConfig` | panda/drivers/windows/pandaJ2534DLL/J2534Connection.cpp:221-265 | DATA_RATE sets the baud rate. LOOPBACK sets the flag to value ≠ 0. Every other parameter leaves both unchanged. Every listed legacy parameter leaves both unchanged. The status is NOT_SUPPORTED exactly for parameters ≥ 0x20, and then nothing changed. A GET_CONFIG of the parameter just set returns the value set. |
| `Scenarios.ProtocolMismatchScenario` | panda/drivers/windows/pandaJ2534DLL/J2534Connection.cpp:65-68 | On a protocol-5 connection, writing one protocol-6 message accepts 0, returns ERR_MSG_PROTOCOL_ID and queues nothing. |
| `Scenarios.PartialWriteScenario` | panda/drivers/windows/pandaJ2534DLL/J2534Connection.cpp:61-81 | A batch whose third message is too long accepts 2 and returns ERR_INVALID_MSG. The two queued actions stay, and both are the first message's encoding. |
| `Scenarios.TransmitThenClearScenario` | panda/drivers/windows/pandaJ2534DLL/J2534Connection.cpp:152-160 | After a one-message write and clearTXBuff, the TX queue is empty, and the calls made were one registration and exactly one TX flush. |
| `Scenarios.EmptyReadScenario` | panda/drivers/windows/pandaJ2534DLL/J2534Connection.cpp:55-58 | A zero-timeout read of an empty queue returns 0 records and ERR_BUFFER_EMPTY. |
| `Scenarios.IntervalBoundaryScenario` | panda/drivers/windows/pandaJ2534DLL/J2534Connection.cpp:88 | Intervals 4 and 65536 give ERR_INVALID_TIME_INTERVAL; 5 and 65535 give STATUS_NOERROR. |
| `Scenarios.PeriodicExhaustionScenario` | panda/drivers/windows/pandaJ2534DLL/J2534Connection.cpp:90-113 | Ten starts get ids 0..9. The eleventh gets ERR_EXCEEDED_LIMIT. After stopping id 3, the next start gets id 3. |
| `Scenarios.DuplicateFilterScenario` | panda/drivers/windows/pandaJ2534DLL/J2534Connection.cpp:115-137 | With filters compared by value (not the `shared_ptr` identity of line 123, under which this case cannot arise), registering an equal filter again returns ERR_NOT_UNIQUE and uses up no slot: the next new filter gets slot 1. |
| `Scenarios.BlockPrecedenceScenario` | panda/drivers/windows/pandaJ2534DLL/J2534Connection.cpp:206-219 | With a passing and a blocking filter, in either slot order, a frame is dropped. With no filters it is dropped too. |

## Left out

- Timing: the `Timer`, `Sleep(2)` and wall-clock polling. The timer's answers are the parameter `expiresAt`.
- Concurrency: the mutexes and `synchronized` blocks (`messageRxBuff_mutex`, `staged_writes_lock`). Every call runs alone.
- ConnectionModel.J2534Connection.ReadMsgs: assumes no frame arrives while the read polls, since delivery runs on another thread. The exact count ReadCount therefore describes a read with no concurrent arrivals.
- Ownership: `shared_ptr`/`weak_ptr` and `shared_from_this`. Device liveness is the boolean `deviceAlive`. The object identity of filters and periodic messages is not modelled; they are values.
- Device and scheduler calls (`can_clear`, `registerConnectionTx`, `unstallConnectionTx`, `insertActionIntoTaskList`, `scheduleImmediate`, `cancel`) appear only as entries of the ghost log `effects`. What they do inside the device is not part of this model.
- Code declared in other files: `parseMessageTx`, `J2534MessageFilter` (its constructor, `check` and comparison), `MessagePeriodic`, `addMsgToRxQueue`, and the length getters `getMinMsgLen`/`getMaxMsgLen`/`getMaxMsgSingleFrameLen`. They are parameters fixed at construction; `addMsgToRxQueue` is an append. J2534Connection.h is not part of this model. The two pool sizes (10) and the initial loopback value (off) are taken as constants.
- Raw buffers: the `memcpy` into the host's fixed-size Data array is a sequence copy, so an overrun is not modelled. ReadMsgs returns the records it writes as a sequence. It does not model the untouched host entries beyond the count.
- Integer widths: `unsigned long` values are unbounded naturals. The code only compares them, and `TimeInterval*1000` is computed after the ≤ 65535 check. The `int` loop counter of PassThruWriteMsgs is not bounded either.
- `printf` logging of unknown ioctl parameters.
- The stubs PassThruIoctl, init5b and initFast (J2534Connection.cpp:146-151). They return STATUS_NOERROR or ERR_FAILED unconditionally.
- The `port` field, which this file sets and never uses. `Flags` is kept as the constant `flags` but never read by any operation.
