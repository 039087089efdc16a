/** Client scenarios: what a host can conclude about a fresh connection from
    the contracts of J2534Connection alone. */
module Scenarios {
  import opened J2534
  import opened Slots
  import opened FilterChain
  import opened ConnectionModel

  function Msg(protocolID: nat, size: nat): PassThruMsg {
    PassThruMsg(protocolID, 0, 0, 0, size, 0, [])
  }

  /** A CAN-like connection on protocol 5 with a live device: 4..12-byte
      messages, every message encodes, filter type 1 blocks and any other
      passes, filters compare by value. */
  method NewConnection() returns (c: J2534Connection)
    ensures fresh(c) && fresh(c.periodicMessages) && fresh(c.filters) && c.Valid()
    ensures c.protocolID == 5 && c.deviceAlive
    ensures c.minMsgLen == 4 && c.maxMsgLen == 12 && c.maxMsgSingleFrameLen == 12
    ensures forall m :: c.parseMessageTx(m) == Some(Action(m.dataSize))
    ensures forall f, fr :: c.filterCheck(f, fr) == (if f.filterType == 1 then FilterBlock else FilterPass)
    ensures forall a, b :: c.sameFilter(a, b) == (a == b)
    ensures forall t, mask, pattern, fc :: c.filterBuildError(t, mask, pattern, fc) == None
    ensures AllEmpty(c.periodicMessages[..]) && AllEmpty(c.filters[..])
    ensures c.rxQueue == [] && c.txQueue == [] && c.effects == []
  {
    c := new J2534Connection(true, 5, 0, 500000, 4, 12, 12,
      (m: PassThruMsg) => Some(Action(m.dataSize)),
      (t, mask, pattern, fc) => None,
      (f: Filter, fr: Frame) => if f.filterType == 1 then FilterBlock else FilterPass,
      (a: Filter, b: Filter) => a == b);
  }

  /** Writing one message of protocol 6 on a protocol-5 connection accepts
      nothing and reports the protocol mismatch. */
  method ProtocolMismatchScenario() returns (numMsgs: nat, status: int, queued: nat)
    ensures numMsgs == 0 && status == ERR_MSG_PROTOCOL_ID && queued == 0
  {
    var c := NewConnection();
    numMsgs, status := c.WriteMsgs([Msg(6, 8)]);
    queued := |c.txQueue|;
  }

  /** A batch whose third message is too long: two are accepted and their
      actions stay queued; both are the encoding of the first message. */
  method PartialWriteScenario() returns (numMsgs: nat, status: int, queued: seq<Action>)
    ensures numMsgs == 2 && status == ERR_INVALID_MSG
    ensures queued == [Action(4), Action(4)]
  {
    var c := NewConnection();
    numMsgs, status := c.WriteMsgs([Msg(5, 4), Msg(5, 9), Msg(5, 13)]);
    queued := c.txQueue;
  }

  /** A write followed by clearTXBuff leaves the transmit queue empty after
      exactly one flush of the device's transmit buffer. */
  method TransmitThenClearScenario() returns (left: nat, ghost calls: seq<Effect>)
    ensures left == 0
    ensures calls == [RegisterConnectionTx, CanClear(Can1Tx)]
  {
    var c := NewConnection();
    var n, s := c.WriteMsgs([Msg(5, 8)]);
    s := c.ClearTxBuff();
    left := |c.txQueue|;
    calls := c.effects;
  }

  /** Reading without a timeout from an empty queue yields nothing and
      reports an empty buffer. */
  method EmptyReadScenario() returns (numMsgs: nat, status: int)
    ensures numMsgs == 0 && status == ERR_BUFFER_EMPTY
  {
    var c := NewConnection();
    var msgs;
    msgs, numMsgs, status := c.ReadMsgs(3, 0, 0);
  }

  /** Intervals 4 and 65536 are refused, 5 and 65535 accepted. */
  method IntervalBoundaryScenario() returns (s4: int, s5: int, s65535: int, s65536: int)
    ensures s4 == ERR_INVALID_TIME_INTERVAL && s65536 == ERR_INVALID_TIME_INTERVAL
    ensures s5 == STATUS_NOERROR && s65535 == STATUS_NOERROR
  {
    var c := NewConnection();
    var id;
    id, s4 := c.StartPeriodicMsg(Msg(5, 8), 4);
    id, s5 := c.StartPeriodicMsg(Msg(5, 8), 5);
    assert c.periodicMessages[1..] == c.periodicMessages[..][1..];
    id, s65535 := c.StartPeriodicMsg(Msg(5, 8), 65535);
    id, s65536 := c.StartPeriodicMsg(Msg(5, 8), 65536);
  }

  /** Ten periodic messages fill the pool; the eleventh is refused, and a
      stopped slot is the one handed out next. */
  method PeriodicExhaustionScenario() returns (ids: seq<nat>, eleventh: int, reused: Option<nat>)
    ensures ids == [0, 1, 2, 3, 4, 5, 6, 7, 8, 9]
    ensures eleventh == ERR_EXCEEDED_LIMIT
    ensures reused == Some(3)
  {
    var c := NewConnection();
    ids := [];
    var k := 0;
    while k < PERIODIC_SLOTS
      invariant 0 <= k <= PERIODIC_SLOTS && c.Valid()
      invariant ids == seq(k, i => i)
      invariant forall j :: 0 <= j < k ==> c.periodicMessages[j].Some?
      invariant forall j :: k <= j < PERIODIC_SLOTS ==> c.periodicMessages[j].None?
    {
      LowestFreeIs(c.periodicMessages[..], k);
      var id, s := c.StartPeriodicMsg(Msg(5, 8), 100);
      ids := ids + [id.value];
      k := k + 1;
    }
    assert AllOccupied(c.periodicMessages[..]);
    var id;
    id, eleventh := c.StartPeriodicMsg(Msg(5, 8), 100);
    var stop := c.StopPeriodicMsg(3);
    LowestFreeIs(c.periodicMessages[..], 3);
    reused, stop := c.StartPeriodicMsg(Msg(5, 8), 100);
  }

  /** Registering a filter equal to an active one is refused and does not
      use up a slot. The connection compares filters by value here; with the
      `shared_ptr` comparison of J2534Connection.cpp:123 a freshly built filter
      equals no stored one, so ERR_NOT_UNIQUE does not arise in that code. */
  method DuplicateFilterScenario() returns (first: Option<nat>, second: int, third: Option<nat>)
    ensures first == Some(0) && second == ERR_NOT_UNIQUE && third == Some(1)
  {
    var c := NewConnection();
    var f2 := Filter(2, Some(Msg(5, 4)), Some(Msg(5, 4)), None);
    var f3 := Filter(3, Some(Msg(5, 4)), Some(Msg(5, 4)), None);
    var s;
    LowestFreeIs(c.filters[..], 0);
    assert !IsDuplicate(c.filters[..], f2, c.sameFilter);
    first, s := c.StartMsgFilter(2, Some(Msg(5, 4)), Some(Msg(5, 4)), None);
    LowestFreeIs(c.filters[..], 1);
    assert c.filters[..][0] == Some(f2) && c.sameFilter(f2, f2);
    var id;
    id, second := c.StartMsgFilter(2, Some(Msg(5, 4)), Some(Msg(5, 4)), None);
    assert forall j :: 0 <= j < |c.filters[..]| && c.filters[..][j].Some? ==> c.filters[..][j].value == f2;
    assert !IsDuplicate(c.filters[..], f3, c.sameFilter);
    third, s := c.StartMsgFilter(3, Some(Msg(5, 4)), Some(Msg(5, 4)), None);
  }

  /** With a passing and a blocking filter active, in either slot order, an
      inbound frame is dropped; with no filter it is dropped too. */
  method BlockPrecedenceScenario(frame: Frame) returns (passFirst: nat, blockFirst: nat, none: nat)
    ensures passFirst == 0 && blockFirst == 0 && none == 0
  {
    var c := NewConnection();
    NoActiveFilterDrops(c.filters[..], frame, c.filterCheck);
    c.ProcessMessage(frame);
    none := |c.rxQueue|;
    LowestFreeIs(c.filters[..], 0);
    var id, s := c.StartMsgFilter(2, None, None, None);
    LowestFreeIs(c.filters[..], 1);
    id, s := c.StartMsgFilter(1, None, None, None);
    BlockWins(c.filters[..], frame, c.filterCheck, 1);
    c.ProcessMessage(frame);
    passFirst := |c.rxQueue|;

    var d := NewConnection();
    LowestFreeIs(d.filters[..], 0);
    id, s := d.StartMsgFilter(1, None, None, None);
    LowestFreeIs(d.filters[..], 1);
    id, s := d.StartMsgFilter(2, None, None, None);
    BlockWins(d.filters[..], frame, d.filterCheck, 0);
    d.ProcessMessage(frame);
    blockFirst := |d.rxQueue|;
  }
}
