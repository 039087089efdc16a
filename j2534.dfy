/** Values shared by the pass-thru connection model: status codes, ioctl
    configuration parameter identifiers and the records the API exchanges.
    Numeric values are those of SAE J2534-1 (version 04.04). An `unsigned long`
    of the C interface is a `nat` here: the connection only compares such
    values, so no wrap-around can arise. */
module J2534 {

  // ---- Status codes (the `long` returned by every PassThru* call) ----

  const STATUS_NOERROR: int := 0x00
  const ERR_NOT_SUPPORTED: int := 0x01
  const ERR_FAILED: int := 0x07
  const ERR_TIMEOUT: int := 0x09
  const ERR_INVALID_MSG: int := 0x0A
  const ERR_INVALID_TIME_INTERVAL: int := 0x0B
  const ERR_EXCEEDED_LIMIT: int := 0x0C
  const ERR_INVALID_MSG_ID: int := 0x0D
  const ERR_BUFFER_EMPTY: int := 0x10
  const ERR_MSG_PROTOCOL_ID: int := 0x15
  const ERR_INVALID_FILTER_ID: int := 0x16
  const ERR_NOT_UNIQUE: int := 0x18

  // ---- GET_CONFIG / SET_CONFIG parameter identifiers ----

  const DATA_RATE: nat := 0x01
  const LOOPBACK: nat := 0x03
  const NODE_ADDRESS: nat := 0x04
  const NETWORK_LINE: nat := 0x05
  const P1_MIN: nat := 0x06
  const P1_MAX: nat := 0x07
  const P2_MIN: nat := 0x08
  const P2_MAX: nat := 0x09
  const P3_MIN: nat := 0x0A
  const P3_MAX: nat := 0x0B
  const P4_MIN: nat := 0x0C
  const P4_MAX: nat := 0x0D
  const W1: nat := 0x0E
  const W2: nat := 0x0F
  const W3: nat := 0x10
  const W4: nat := 0x11
  const W5: nat := 0x12
  const TIDLE: nat := 0x13
  const TINIL: nat := 0x14
  const TWUP: nat := 0x15
  const PARITY: nat := 0x16
  const BIT_SAMPLE_POINT: nat := 0x17
  const SYNC_JUMP_WIDTH: nat := 0x18
  const W0: nat := 0x19
  const T1_MAX: nat := 0x1A
  const T2_MAX: nat := 0x1B
  const T4_MAX: nat := 0x1C
  const T5_MAX: nat := 0x1D
  const T3_MAX: nat := 0x24
  const ISO15765_WFT_MAX: nat := 0x25

  /** Parameters at or above this identifier need equipment the adapter lacks. */
  const RESERVED_PARAM_BASE: nat := 0x20

  /** Parameters SET_CONFIG accepts and ignores: a J1850PWM, ISO 9141/14230
      and SCI group the adapter does not support, plus ISO15765_WFT_MAX. */
  const IGNORED_SET_PARAMS: set<nat> :=
    {ISO15765_WFT_MAX, NODE_ADDRESS, NETWORK_LINE, P1_MIN, P1_MAX, P2_MIN, P2_MAX,
     P3_MIN, P3_MAX, P4_MIN, P4_MAX, W0, W1, W2, W3, W4, W5, TIDLE, TINIL, TWUP,
     PARITY, T1_MAX, T2_MAX, T3_MAX, T4_MAX, T5_MAX}

  /** GET_CONFIG answers for the read-only electrical characteristics. */
  const NOMINAL_BIT_SAMPLE_POINT: nat := 80
  const NOMINAL_SYNC_JUMP_WIDTH: nat := 15

  // ---- Limits of the periodic scheduler and the filter pool ----

  const PERIODIC_SLOTS: nat := 10
  const FILTER_SLOTS: nat := 10
  const MIN_PERIODIC_INTERVAL: nat := 5
  const MAX_PERIODIC_INTERVAL: nat := 65535

  // ---- Records ----

  newtype byte = x: int | 0 <= x < 256

  datatype Option<T> = None | Some(value: T)

  /** PASSTHRU_MSG: the host-side message record. `dataSize` is a field of
      its own, set by the host, and is what validation looks at. */
  datatype PassThruMsg = PassThruMsg(
    protocolID: nat,
    rxStatus: nat,
    txFlags: nat,
    timestamp: nat,
    dataSize: nat,
    extraDataIndex: nat,
    data: seq<byte>)

  /** J2534Frame: one received frame as the device hands it to a connection. */
  datatype Frame = Frame(data: seq<byte>, timestamp: nat, rxStatus: nat, extraDataIndex: nat)

  /** An encoded, protocol-specific unit of transmit work; opaque here. */
  datatype Action = Action(handle: nat)

  /** MessagePeriodic: an action re-fired every `intervalMicros` microseconds. */
  datatype Periodic = Periodic(intervalMicros: nat, action: Action)

  datatype FilterResult = FilterBlock | FilterPass | FilterNeutral

  /** J2534MessageFilter, as built from the arguments of PassThruStartMsgFilter;
      a null message pointer is `None`. */
  datatype Filter = Filter(
    filterType: nat,
    mask: Option<PassThruMsg>,
    pattern: Option<PassThruMsg>,
    flowControl: Option<PassThruMsg>)

  /** The two CAN buffers of the device a connection asks to discard. */
  datatype CanBuffer = Can1Tx | CanRx

  /** Calls a connection makes on collaborators outside this model, recorded
      in order so that contracts can say which were made. */
  datatype Effect =
    | CanClear(buffer: CanBuffer)
    | RegisterConnectionTx
    | UnstallConnectionTx
    | ScheduleImmediate(p: Periodic)
    | InsertIntoTaskList(p: Periodic)
    | Cancel(p: Periodic)
}
