/** J2534Connection: one logical pass-thru channel bound to a protocol. It owns
    a receive queue of frames, a transmit queue of encoded actions, ten
    periodic-message slots, ten filter slots and two configuration values.

    What the concrete protocol supplies (its message encoder, its length
    limits, how a filter is built, checked and compared) is fixed at
    construction as constant fields. Whether the shared device is still alive
    (the weak pointer's `lock()` succeeding) is the field `deviceAlive`; calls
    on the device and on periodic messages are recorded in the ghost log
    `effects`. */
module ConnectionModel {
  import opened J2534
  import opened Slots
  import opened FilterChain

  /** What PassThruWriteMsgs reports: `accepted` is written back to `*pNumMsgs`. */
  datatype WriteReport = WriteReport(accepted: nat, status: int)

  function Min(a: nat, b: nat): (r: nat) {
    if a <= b then a else b
  }

  /** How many records PassThruReadMsgs returns when `requested` are asked for,
      `queued` frames wait in the receive queue, and (for a nonzero timeout)
      the timer test first reports expiry on loop iteration `expiresAt`.
      Nothing else is delivered while the read runs. */
  function ReadCount(requested: nat, queued: nat, timeout: nat, expiresAt: nat): (k: nat)
    ensures k <= requested && k <= queued
    ensures timeout > 0 ==> k <= expiresAt
    ensures k < requested && k < queued ==> timeout > 0 && k == expiresAt
  {
    var available := Min(requested, queued);
    if timeout == 0 then available else Min(available, expiresAt)
  }

  /** Some active filter in `slots` equals `f` by `same`. */
  predicate IsDuplicate(slots: seq<Option<Filter>>, f: Filter, same: (Filter, Filter) -> bool) {
    exists j :: 0 <= j < |slots| && slots[j].Some? && same(slots[j].value, f)
  }

  /** No two active filters are equal by `same`. */
  predicate FiltersDistinct(slots: seq<Option<Filter>>, same: (Filter, Filter) -> bool) {
    forall i, j :: 0 <= i < |slots| && 0 <= j < |slots| && i != j && slots[i].Some? && slots[j].Some?
      ==> !same(slots[i].value, slots[j].value)
  }

  /** The cancel() calls clearing the periodic slots makes, in slot order. */
  function Cancels(slots: seq<Option<Periodic>>): (r: seq<Effect>) {
    if slots == [] then []
    else (if slots[0].Some? then [Cancel(slots[0].value)] else []) + Cancels(slots[1..])
  }

  lemma {:induction false} CancelsAppend(a: seq<Option<Periodic>>, b: seq<Option<Periodic>>)
    ensures Cancels(a + b) == Cancels(a) + Cancels(b)
  {
    if a == [] {
      assert a + b == b;
    } else {
      assert (a + b)[1..] == a[1..] + b;
      CancelsAppend(a[1..], b);
    }
  }

  class J2534Connection {
    const protocolID: nat
    const flags: nat
    var baudRate: nat
    var loopback: bool
    var deviceAlive: bool
    var rxQueue: seq<Frame>
    var txQueue: seq<Action>
    const periodicMessages: array<Option<Periodic>>
    const filters: array<Option<Filter>>
    ghost var effects: seq<Effect>

    // Supplied by the concrete protocol.
    const minMsgLen: nat
    const maxMsgLen: nat
    const maxMsgSingleFrameLen: nat
    /** parseMessageTx: `None` for a protocol variant that does not encode. */
    const parseMessageTx: PassThruMsg -> Option<Action>
    /** The error code the J2534MessageFilter constructor throws, if any. */
    const filterBuildError: (nat, Option<PassThruMsg>, Option<PassThruMsg>, Option<PassThruMsg>) -> Option<int>
    /** J2534MessageFilter::check. */
    const filterCheck: (Filter, Frame) -> FilterResult
    /** The comparison of an existing filter with a new one. */
    const sameFilter: (Filter, Filter) -> bool

    ghost predicate Valid()
      reads this
    {
      periodicMessages.Length == PERIODIC_SLOTS &&
      filters.Length == FILTER_SLOTS &&
      forall a, b :: sameFilter(a, b) ==> sameFilter(b, a)
    }

    constructor (deviceAlive: bool, protocolID: nat, flags: nat, baudRate: nat,
                 minMsgLen: nat, maxMsgLen: nat, maxMsgSingleFrameLen: nat,
                 parseMessageTx: PassThruMsg -> Option<Action>,
                 filterBuildError: (nat, Option<PassThruMsg>, Option<PassThruMsg>, Option<PassThruMsg>) -> Option<int>,
                 filterCheck: (Filter, Frame) -> FilterResult,
                 sameFilter: (Filter, Filter) -> bool)
      requires forall a, b :: sameFilter(a, b) ==> sameFilter(b, a)
      ensures Valid()
      ensures fresh(periodicMessages) && fresh(filters)
      ensures AllEmpty(periodicMessages[..]) && AllEmpty(filters[..])
      ensures rxQueue == [] && txQueue == [] && effects == []
      ensures this.protocolID == protocolID && this.flags == flags && this.baudRate == baudRate
      ensures !loopback && this.deviceAlive == deviceAlive
      ensures this.minMsgLen == minMsgLen && this.maxMsgLen == maxMsgLen
      ensures this.maxMsgSingleFrameLen == maxMsgSingleFrameLen
      ensures this.parseMessageTx == parseMessageTx && this.filterBuildError == filterBuildError
      ensures this.filterCheck == filterCheck && this.sameFilter == sameFilter
    {
      this.deviceAlive := deviceAlive;
      this.protocolID := protocolID;
      this.flags := flags;
      this.baudRate := baudRate;
      this.loopback := false;
      this.minMsgLen := minMsgLen;
      this.maxMsgLen := maxMsgLen;
      this.maxMsgSingleFrameLen := maxMsgSingleFrameLen;
      this.parseMessageTx := parseMessageTx;
      this.filterBuildError := filterBuildError;
      this.filterCheck := filterCheck;
      this.sameFilter := sameFilter;
      rxQueue := [];
      txQueue := [];
      periodicMessages := new Option<Periodic>[PERIODIC_SLOTS](_ => None);
      filters := new Option<Filter>[FILTER_SLOTS](_ => None);
      effects := [];
    }

    // ---------------------------------------------------------------- write

    /** validateTxMsg: the declared size must lie within the protocol's limits. */
    function ValidateTxMsg(msg: PassThruMsg): (r: int)
      ensures r == STATUS_NOERROR <==> minMsgLen <= msg.dataSize <= maxMsgLen
      ensures r == STATUS_NOERROR || r == ERR_INVALID_MSG
    {
      if msg.dataSize < minMsgLen || msg.dataSize > maxMsgLen then ERR_INVALID_MSG
      else STATUS_NOERROR
    }

    /** The per-message test of PassThruWriteMsgs: protocol first, then size. */
    function TxCheck(msg: PassThruMsg): (r: int) {
      if msg.protocolID != protocolID then ERR_MSG_PROTOCOL_ID else ValidateTxMsg(msg)
    }

    /** The outcome of a write batch: the messages before the first failing
        one are accepted, and the status is that message's error. */
    function CheckTxBatch(msgs: seq<PassThruMsg>): (r: WriteReport)
      ensures r.accepted <= |msgs|
      ensures forall j :: 0 <= j < r.accepted ==> TxCheck(msgs[j]) == STATUS_NOERROR
      ensures r.accepted < |msgs| ==> r.status == TxCheck(msgs[r.accepted]) != STATUS_NOERROR
      ensures r.accepted == |msgs| ==> r.status == STATUS_NOERROR
    {
      if msgs == [] then WriteReport(0, STATUS_NOERROR)
      else if TxCheck(msgs[0]) != STATUS_NOERROR then WriteReport(0, TxCheck(msgs[0]))
      else
        var rest := CheckTxBatch(msgs[1..]);
        WriteReport(rest.accepted + 1, rest.status)
    }

    /** The actions a write of `msgs` pushes when `accepted` messages pass:
        one per accepted message, each the encoding of the FIRST message,
        and none when that encoding is null or the device is gone. */
    function QueuedActions(msgs: seq<PassThruMsg>, accepted: nat, alive: bool): (r: seq<Action>)
    {
      if alive && 0 < accepted && 0 < |msgs| && parseMessageTx(msgs[0]).Some?
      then seq(accepted, _ => parseMessageTx(msgs[0]).value)
      else []
    }

    /** schedultMsgTx: queue the action and tell the device there is work,
        or do nothing when the device is gone. */
    method ScheduleMsgTx(action: Action)
      modifies this`txQueue, this`effects
      ensures txQueue == old(txQueue) + (if deviceAlive then [action] else [])
      ensures effects == old(effects) + (if deviceAlive then [RegisterConnectionTx] else [])
    {
      if deviceAlive {
        txQueue := txQueue + [action];
        effects := effects + [RegisterConnectionTx];
      }
    }

    /** rescheduleExistingTxMsgs: ask the device to reconsider this connection. */
    method RescheduleExistingTxMsgs()
      modifies this`effects
      ensures effects == old(effects) + (if deviceAlive then [UnstallConnectionTx] else [])
    {
      if deviceAlive {
        effects := effects + [UnstallConnectionTx];
      }
    }

    /** PassThruWriteMsgs over the host's `*pNumMsgs` messages `msgs`. */
    method WriteMsgs(msgs: seq<PassThruMsg>) returns (numMsgs: nat, status: int)
      modifies this`txQueue, this`effects
      ensures WriteReport(numMsgs, status) == CheckTxBatch(msgs)
      ensures status == STATUS_NOERROR <==> numMsgs == |msgs|
      ensures status == ERR_MSG_PROTOCOL_ID <==> numMsgs < |msgs| && msgs[numMsgs].protocolID != protocolID
      ensures status == ERR_INVALID_MSG <==>
                numMsgs < |msgs| && msgs[numMsgs].protocolID == protocolID &&
                !(minMsgLen <= msgs[numMsgs].dataSize <= maxMsgLen)
      ensures txQueue == old(txQueue) + QueuedActions(msgs, numMsgs, deviceAlive)
      ensures effects == old(effects) +
                seq(|QueuedActions(msgs, numMsgs, deviceAlive)|, _ => RegisterConnectionTx)
    {
      var i := 0;
      while i < |msgs|
        invariant 0 <= i <= |msgs|
        invariant forall j :: 0 <= j < i ==> TxCheck(msgs[j]) == STATUS_NOERROR
        invariant txQueue == old(txQueue) + QueuedActions(msgs, i, deviceAlive)
        invariant effects == old(effects) + seq(|QueuedActions(msgs, i, deviceAlive)|, _ => RegisterConnectionTx)
      {
        var msg := msgs[i];
        if msg.protocolID != protocolID {
          return i, ERR_MSG_PROTOCOL_ID;
        }
        var retcode := ValidateTxMsg(msg);
        if retcode != STATUS_NOERROR {
          return i, retcode;
        }
        var msgtx := parseMessageTx(msgs[0]);  // J2534Connection.cpp:76 encodes *pMsg, the first message
        if msgtx.Some? {
          ScheduleMsgTx(msgtx.value);
        }
        assert deviceAlive && msgtx.Some? ==>
          QueuedActions(msgs, i + 1, deviceAlive) == QueuedActions(msgs, i, deviceAlive) + [msgtx.value];
        i := i + 1;
      }
      return |msgs|, STATUS_NOERROR;
    }

    // ----------------------------------------------------------------- read

    /** The record handed to the host for a received frame. */
    function RxToMsg(frame: Frame): (r: PassThruMsg) {
      PassThruMsg(protocolID, frame.rxStatus, 0, frame.timestamp, |frame.data|, frame.extraDataIndex, frame.data)
    }

    /** PassThruReadMsgs: pop up to `requested` frames. With a nonzero
        `timeout` the loop polls; `expiresAt` is the first iteration on which
        the timer test reports that `timeout` has passed. */
    method ReadMsgs(requested: nat, timeout: nat, expiresAt: nat)
      returns (msgs: seq<PassThruMsg>, numMsgs: nat, status: int)
      modifies this`rxQueue
      ensures numMsgs == |msgs| == ReadCount(requested, |old(rxQueue)|, timeout, expiresAt)
      ensures numMsgs <= requested
      ensures timeout == 0 ==> numMsgs == Min(requested, |old(rxQueue)|)
      ensures forall i :: 0 <= i < numMsgs ==> msgs[i] == RxToMsg(old(rxQueue)[i])
      ensures rxQueue == old(rxQueue)[numMsgs..]
      ensures numMsgs == 0 <==> status == ERR_BUFFER_EMPTY
      ensures 0 < numMsgs == requested ==> status == STATUS_NOERROR
      ensures 0 < numMsgs < requested ==> status == (if timeout == 0 then STATUS_NOERROR else ERR_TIMEOUT)
    {
      var errCode := STATUS_NOERROR;
      msgs := [];
      var polls: nat := 0;  // loop iterations begun, each starting with a timer test
      ghost var queued := |rxQueue|;
      while |msgs| < requested
        invariant |msgs| <= requested && |msgs| <= queued
        invariant rxQueue == old(rxQueue)[|msgs|..]
        invariant forall i :: 0 <= i < |msgs| ==> msgs[i] == RxToMsg(old(rxQueue)[i])
        invariant timeout > 0 ==> polls <= expiresAt && |msgs| == Min(polls, queued)
        invariant errCode == STATUS_NOERROR
        decreases requested - |msgs|, if timeout > 0 then expiresAt - polls else 0
      {
        if timeout > 0 && polls >= expiresAt {
          errCode := ERR_TIMEOUT;
          break;
        }
        polls := polls + 1;
        if rxQueue == [] {
          if timeout == 0 {
            break;
          }
          continue;  // Sleep(2), then poll again
        }
        var msgIn := rxQueue[0];
        rxQueue := rxQueue[1..];
        msgs := msgs + [RxToMsg(msgIn)];
        if |msgs| == requested {
          break;
        }
      }
      if |msgs| == 0 {
        errCode := ERR_BUFFER_EMPTY;
      }
      numMsgs := |msgs|;
      status := errCode;
    }

    /** processMessage's walk over the filters: stop at the first block,
        otherwise admit when some filter passed. */
    method EvaluateFilters(frame: Frame) returns (admit: bool)
      ensures admit == Admits(filters[..], frame, filterCheck)
    {
      var filterRes := FilterNeutral;
      for i := 0 to filters.Length
        invariant filterRes == FilterNeutral || filterRes == FilterPass
        invariant !AnyGives(filters[..i], frame, filterCheck, FilterBlock)
        invariant filterRes == FilterPass <==> AnyGives(filters[..i], frame, filterCheck, FilterPass)
      {
        if filters[i].None? {
          continue;
        }
        var current := filterCheck(filters[i].value, frame);
        if current == FilterBlock {
          assert filters[..][i].Some? && filterCheck(filters[..][i].value, frame) == FilterBlock;
          return false;
        }
        if current == FilterPass {
          filterRes := FilterPass;
        }
      }
      assert filters[..filters.Length] == filters[..];
      return filterRes == FilterPass;
    }

    /** processMessage: queue the frame when the filter chain admits it. */
    method ProcessMessage(frame: Frame)
      modifies this`rxQueue
      ensures rxQueue == old(rxQueue) + (if Admits(filters[..], frame, filterCheck) then [frame] else [])
    {
      var admit := EvaluateFilters(frame);
      if admit {
        rxQueue := rxQueue + [frame];
      }
    }

    // ------------------------------------------------------------- periodic

    /** The three checks of PassThruStartPeriodicMsg, in the order made. */
    function PeriodicCheck(msg: PassThruMsg, timeInterval: nat): (r: int)
      ensures r == STATUS_NOERROR <==>
                minMsgLen <= msg.dataSize <= maxMsgSingleFrameLen && msg.protocolID == protocolID &&
                MIN_PERIODIC_INTERVAL <= timeInterval <= MAX_PERIODIC_INTERVAL
      ensures !(minMsgLen <= msg.dataSize <= maxMsgSingleFrameLen) ==> r == ERR_INVALID_MSG
      ensures minMsgLen <= msg.dataSize <= maxMsgSingleFrameLen && msg.protocolID != protocolID ==>
                r == ERR_MSG_PROTOCOL_ID
      ensures minMsgLen <= msg.dataSize <= maxMsgSingleFrameLen && msg.protocolID == protocolID &&
              !(MIN_PERIODIC_INTERVAL <= timeInterval <= MAX_PERIODIC_INTERVAL) ==>
                r == ERR_INVALID_TIME_INTERVAL
    {
      if msg.dataSize < minMsgLen || msg.dataSize > maxMsgSingleFrameLen then ERR_INVALID_MSG
      else if msg.protocolID != protocolID then ERR_MSG_PROTOCOL_ID
      else if timeInterval < MIN_PERIODIC_INTERVAL || timeInterval > MAX_PERIODIC_INTERVAL then ERR_INVALID_TIME_INTERVAL
      else STATUS_NOERROR
    }

    /** What a successful start puts in the claimed slot: nothing when the
        encoding is null. The interval is kept in microseconds. */
    function PeriodicFor(msg: PassThruMsg, timeInterval: nat): (r: Option<Periodic>) {
      match parseMessageTx(msg)
      case None => None
      case Some(a) => Some(Periodic(timeInterval * 1000, a))
    }

    /** PassThruStartPeriodicMsg; `msgID` is `*pMsgID`, `None` when not written. */
    method StartPeriodicMsg(msg: PassThruMsg, timeInterval: nat) returns (msgID: Option<nat>, status: int)
      requires Valid()
      modifies periodicMessages, this`effects
      ensures Valid()
      ensures var check := PeriodicCheck(msg, timeInterval);
              var free := FirstFree(old(periodicMessages[..]));
              if check != STATUS_NOERROR then
                status == check && msgID.None? &&
                periodicMessages[..] == old(periodicMessages[..]) && effects == old(effects)
              else if free.None? then
                status == ERR_EXCEEDED_LIMIT && msgID.None? &&
                periodicMessages[..] == old(periodicMessages[..]) && effects == old(effects)
              else
                status == STATUS_NOERROR && msgID == free &&
                periodicMessages[..] == old(periodicMessages[..])[free.value := PeriodicFor(msg, timeInterval)] &&
                effects == old(effects) +
                  (match PeriodicFor(msg, timeInterval)
                   case None => []
                   case Some(p) => [ScheduleImmediate(p)] + (if deviceAlive then [InsertIntoTaskList(p)] else []))
    {
      if msg.dataSize < minMsgLen || msg.dataSize > maxMsgSingleFrameLen {
        return None, ERR_INVALID_MSG;
      }
      if msg.protocolID != protocolID {
        return None, ERR_MSG_PROTOCOL_ID;
      }
      if timeInterval < MIN_PERIODIC_INTERVAL || timeInterval > MAX_PERIODIC_INTERVAL {
        return None, ERR_INVALID_TIME_INTERVAL;
      }
      var free := FindFreeSlot(periodicMessages);
      if free.None? {
        return None, ERR_EXCEEDED_LIMIT;
      }
      var i := free.value;
      msgID := Some(i);
      var msgtx := parseMessageTx(msg);
      if msgtx.Some? {
        var p := Periodic(timeInterval * 1000, msgtx.value);
        periodicMessages[i] := Some(p);
        effects := effects + [ScheduleImmediate(p)];
        if deviceAlive {
          effects := effects + [InsertIntoTaskList(p)];
        }
      }
      status := STATUS_NOERROR;
    }

    /** PassThruStopPeriodicMsg: cancel and free an occupied slot. */
    method StopPeriodicMsg(msgID: nat) returns (status: int)
      requires Valid()
      modifies periodicMessages, this`effects
      ensures Valid()
      ensures var occupied := msgID < periodicMessages.Length && old(periodicMessages[msgID]).Some?;
              if occupied then
                status == STATUS_NOERROR &&
                periodicMessages[..] == old(periodicMessages[..])[msgID := None] &&
                effects == old(effects) + [Cancel(old(periodicMessages[msgID]).value)]
              else
                status == ERR_INVALID_MSG_ID &&
                periodicMessages[..] == old(periodicMessages[..]) && effects == old(effects)
    {
      if msgID >= periodicMessages.Length || periodicMessages[msgID].None? {
        return ERR_INVALID_MSG_ID;
      }
      effects := effects + [Cancel(periodicMessages[msgID].value)];
      periodicMessages[msgID] := None;
      status := STATUS_NOERROR;
    }

    /** clearPeriodicMsgs: cancel every scheduled message, in slot order, and
        empty its slot. */
    method ClearPeriodicMsgs() returns (status: int)
      requires Valid()
      modifies periodicMessages, this`effects
      ensures Valid()
      ensures status == STATUS_NOERROR
      ensures AllEmpty(periodicMessages[..])
      ensures effects == old(effects) + Cancels(old(periodicMessages[..]))
    {
      for i := 0 to periodicMessages.Length
        invariant forall j :: 0 <= j < i ==> periodicMessages[j].None?
        invariant forall j :: i <= j < periodicMessages.Length ==> periodicMessages[j] == old(periodicMessages[j])
        invariant effects == old(effects) + Cancels(old(periodicMessages[..])[..i])
      {
        ghost var done := old(periodicMessages[..])[..i];
        ghost var slot := old(periodicMessages[..])[i];
        assert old(periodicMessages[..])[..i + 1] == done + [slot];
        CancelsAppend(done, [slot]);
        assert Cancels([slot]) == (if slot.Some? then [Cancel(slot.value)] else []) by {
          assert [slot][1..] == [];
        }
        if periodicMessages[i].None? {
          continue;
        }
        effects := effects + [Cancel(periodicMessages[i].value)];
        periodicMessages[i] := None;
      }
      assert old(periodicMessages[..])[..periodicMessages.Length] == old(periodicMessages[..]);
      status := STATUS_NOERROR;
    }

    // -------------------------------------------------------------- filters

    /** The duplicate scan of PassThruStartMsgFilter over all active filters. */
    method HasDuplicate(f: Filter) returns (dup: bool)
      ensures dup == IsDuplicate(filters[..], f, sameFilter)
    {
      for checkIdx := 0 to filters.Length
        invariant !IsDuplicate(filters[..checkIdx], f, sameFilter)
      {
        if filters[checkIdx].None? {
          continue;
        }
        if sameFilter(filters[checkIdx].value, f) {
          assert filters[..][checkIdx].Some? && sameFilter(filters[..][checkIdx].value, f);
          return true;
        }
        assert filters[..checkIdx + 1] == filters[..checkIdx] + [filters[checkIdx]];
      }
      assert filters[..filters.Length] == filters[..];
      return false;
    }

    /** PassThruStartMsgFilter; `filterID` is `*pFilterID`, `None` when not written. */
    method StartMsgFilter(filterType: nat, mask: Option<PassThruMsg>, pattern: Option<PassThruMsg>,
                          flowControl: Option<PassThruMsg>) returns (filterID: Option<nat>, status: int)
      requires Valid()
      modifies filters
      ensures Valid()
      ensures var free := FirstFree(old(filters[..]));
              var f := Filter(filterType, mask, pattern, flowControl);
              var thrown := filterBuildError(filterType, mask, pattern, flowControl);
              if free.None? then
                status == ERR_EXCEEDED_LIMIT && filterID.None? && filters[..] == old(filters[..])
              else if thrown.Some? then
                status == thrown.value && filterID.None? && filters[..] == old(filters[..])
              else if IsDuplicate(old(filters[..]), f, sameFilter) then
                status == ERR_NOT_UNIQUE && filterID.None? && filters[..] == old(filters[..])
              else
                status == STATUS_NOERROR && filterID == free &&
                filters[..] == old(filters[..])[free.value := Some(f)]
      ensures FiltersDistinct(old(filters[..]), sameFilter) ==> FiltersDistinct(filters[..], sameFilter)
    {
      var free := FindFreeSlot(filters);
      if free.None? {
        return None, ERR_EXCEEDED_LIMIT;
      }
      var i := free.value;
      var thrown := filterBuildError(filterType, mask, pattern, flowControl);
      if thrown.Some? {
        return None, thrown.value;
      }
      var newFilter := Filter(filterType, mask, pattern, flowControl);
      var dup := HasDuplicate(newFilter);
      if dup {
        filters[i] := None;  // the slot is already empty
        assert filters[..] == old(filters[..]);
        return None, ERR_NOT_UNIQUE;
      }
      filterID := Some(i);
      filters[i] := Some(newFilter);
      status := STATUS_NOERROR;
    }

    /** PassThruStopMsgFilter: free an occupied filter slot. */
    method StopMsgFilter(filterID: nat) returns (status: int)
      requires Valid()
      modifies filters
      ensures Valid()
      ensures var occupied := filterID < filters.Length && old(filters[filterID]).Some?;
              if occupied then
                status == STATUS_NOERROR && filters[..] == old(filters[..])[filterID := None]
              else
                status == ERR_INVALID_FILTER_ID && filters[..] == old(filters[..])
      ensures FiltersDistinct(old(filters[..]), sameFilter) ==> FiltersDistinct(filters[..], sameFilter)
    {
      if filterID >= filters.Length || filters[filterID].None? {
        return ERR_INVALID_FILTER_ID;
      }
      filters[filterID] := None;
      status := STATUS_NOERROR;
    }

    /** clearMsgFilters: empty every filter slot. */
    method ClearMsgFilters() returns (status: int)
      requires Valid()
      modifies filters
      ensures Valid()
      ensures status == STATUS_NOERROR
      ensures AllEmpty(filters[..])
    {
      for i := 0 to filters.Length
        invariant forall j :: 0 <= j < i ==> filters[j].None?
      {
        filters[i] := None;
      }
      status := STATUS_NOERROR;
    }

    // -------------------------------------------------------------- buffers

    /** clearTXBuff: drop queued actions and flush the device's TX buffer;
        nothing at all happens when the device is gone. */
    method ClearTxBuff() returns (status: int)
      modifies this`txQueue, this`effects
      ensures status == STATUS_NOERROR
      ensures deviceAlive ==> txQueue == [] && effects == old(effects) + [CanClear(Can1Tx)]
      ensures !deviceAlive ==> txQueue == old(txQueue) && effects == old(effects)
    {
      if deviceAlive {
        txQueue := [];
        effects := effects + [CanClear(Can1Tx)];
      }
      status := STATUS_NOERROR;
    }

    /** clearRXBuff: drop received frames and flush the device's RX buffer;
        nothing at all happens when the device is gone. */
    method ClearRxBuff() returns (status: int)
      modifies this`rxQueue, this`effects
      ensures status == STATUS_NOERROR
      ensures deviceAlive ==> rxQueue == [] && effects == old(effects) + [CanClear(CanRx)]
      ensures !deviceAlive ==> rxQueue == old(rxQueue) && effects == old(effects)
    {
      if deviceAlive {
        rxQueue := [];
        effects := effects + [CanClear(CanRx)];
      }
      status := STATUS_NOERROR;
    }

    // --------------------------------------------------------------- config

    /** setBaud */
    method SetBaud(baud: nat)
      modifies this`baudRate
      ensures baudRate == baud
    {
      baudRate := baud;
    }

    /** processIOCTLGetConfig: `None` stands for the unspecified value the
        C++ function returns for a parameter it does not know: its
        switch falls off the end without a return. */
    function ProcessIoctlGetConfig(parameter: nat): (r: Option<nat>)
      reads this
      ensures parameter == DATA_RATE ==> r == Some(baudRate)
      ensures parameter == LOOPBACK ==> r == Some(if loopback then 1 else 0)
      ensures parameter == BIT_SAMPLE_POINT ==> r == Some(NOMINAL_BIT_SAMPLE_POINT)
      ensures parameter == SYNC_JUMP_WIDTH ==> r == Some(NOMINAL_SYNC_JUMP_WIDTH)
      ensures r.None? <==> parameter !in {DATA_RATE, LOOPBACK, BIT_SAMPLE_POINT, SYNC_JUMP_WIDTH}
    {
      if parameter == DATA_RATE then Some(baudRate)
      else if parameter == LOOPBACK then Some(if loopback then 1 else 0)
      else if parameter == BIT_SAMPLE_POINT then Some(NOMINAL_BIT_SAMPLE_POINT)
      else if parameter == SYNC_JUMP_WIDTH then Some(NOMINAL_SYNC_JUMP_WIDTH)
      else None
    }

    /** processIOCTLSetConfig: the switch runs first; a reserved parameter
        then ends in NOT_SUPPORTED, which the C++ code throws. */
    method ProcessIoctlSetConfig(parameter: nat, value: nat) returns (status: int)
      modifies this`baudRate, this`loopback
      ensures parameter == DATA_RATE ==> baudRate == value && loopback == old(loopback)
      ensures parameter == LOOPBACK ==> loopback == (value != 0) && baudRate == old(baudRate)
      ensures parameter != DATA_RATE && parameter != LOOPBACK ==>
                baudRate == old(baudRate) && loopback == old(loopback)
      ensures status == (if parameter >= RESERVED_PARAM_BASE then ERR_NOT_SUPPORTED else STATUS_NOERROR)
      ensures status == ERR_NOT_SUPPORTED ==> baudRate == old(baudRate) && loopback == old(loopback)
      ensures parameter in IGNORED_SET_PARAMS ==> baudRate == old(baudRate) && loopback == old(loopback)
      ensures parameter == DATA_RATE ==> ProcessIoctlGetConfig(DATA_RATE) == Some(value)
      ensures parameter == LOOPBACK ==> ProcessIoctlGetConfig(LOOPBACK) == Some(if value != 0 then 1 else 0)
    {
      if parameter == DATA_RATE {
        SetBaud(value);
      } else if parameter == LOOPBACK {
        loopback := value != 0;
      }
      // Every parameter in IGNORED_SET_PARAMS is accepted and ignored; an
      // unknown one is printed and otherwise ignored.
      if parameter >= RESERVED_PARAM_BASE {
        return ERR_NOT_SUPPORTED;
      }
      return STATUS_NOERROR;
    }
  }
}
