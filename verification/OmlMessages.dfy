/** The O&M messages of the base station, byte by byte. */
module OmlMessages {
  import opened Bytes

  // message discriminators and placement
  const FOM: byte := 0x80
  const MANUF: byte := 0x10
  const PLACEMENT_ONLY: byte := 0x80

  // message types
  const SW_ACT_REQ: byte := 0x0a
  const SW_ACT_REQ_ACK: byte := 0x0b
  const ACTIVATE_SW: byte := 0x0d
  const ACTIVATE_SW_ACK: byte := 0x0e
  const SW_ACTIVATED_REP: byte := 0x10
  const SET_BTS_ATTR: byte := 0x41
  const SET_BTS_ATTR_ACK: byte := 0x42
  const SET_RADIO_ATTR: byte := 0x44
  const SET_CHAN_ATTR: byte := 0x47
  const STATECHG_EVENT_REP: byte := 0x61
  const CHG_ADM_STATE: byte := 0x69
  const CHG_ADM_STATE_ACK: byte := 0x6a
  const OPSTART: byte := 0x74
  const OPSTART_ACK: byte := 0x75

  // object classes
  const SITE_MANAGER: byte := 0x00
  const BTS: byte := 0x01
  const RADIO_CARRIER: byte := 0x02
  const CHANNEL: byte := 0x03
  const BASEB_TRANSC: byte := 0x04
  const NONE: byte := 0xff

  // states
  const LOCKED: byte := 0x01
  const UNLOCKED: byte := 0x02
  const DISABLED: byte := 0x01
  const ENABLED: byte := 0x02
  const AV_DEPENDENCY: byte := 0x05
  const AV_NOT_INSTALLED: byte := 0x07
  const AV_OK: byte := 0xff

  // places of the header fields in a message
  const MDISC := 3
  const MSG_TYPE := 7
  const OBJ_CLASS := 8
  const TS_NR := 11
  const DATA := 12

  datatype Packet = ToOml(bytes: seq<byte>) | ToRsl(bytes: seq<byte>)

  /** The object a message is about. */
  datatype Object = Object(class_: byte, bts: byte, trx: byte, ts: byte)

  const THE_SITE_MANAGER := Object(SITE_MANAGER, NONE, NONE, NONE)
  const THE_BTS := Object(BTS, 0, NONE, NONE)
  const THE_BASEBAND := Object(BASEB_TRANSC, 0, 0, NONE)
  const THE_RADIO := Object(RADIO_CARRIER, 0, 0, NONE)

  function Channel(ts: byte): Object {
    Object(CHANNEL, 0, 0, ts)
  }

  /** The headers of a formatted message with `n` bytes of attributes. */
  function Header(n: byte, ty: byte, o: Object): (r: seq<byte>)
    requires n < 240
    ensures |r| == DATA && r[MDISC] == FOM && r[MSG_TYPE] == ty && r[OBJ_CLASS] == o.class_ && r[TS_NR] == o.ts
  {
    [0, n + 9, 0xff, FOM, PLACEMENT_ONLY, 0, n + 5, ty, o.class_, o.bts, o.trx, o.ts]
  }

  /** A message without attributes. */
  function Short(ty: byte, o: Object): (r: seq<byte>)
    ensures |r| == 12 && r[MDISC] == FOM && r[MSG_TYPE] == ty && r[OBJ_CLASS] == o.class_ && r[TS_NR] == o.ts
  {
    Header(0, ty, o)
  }

  function StateReport(o: Object, op: byte, av: byte, adm: byte): (r: seq<byte>)
    ensures |r| == 20 && r[MDISC] == FOM && r[MSG_TYPE] == STATECHG_EVENT_REP && r[OBJ_CLASS] == o.class_ &&
      r[TS_NR] == o.ts
  {
    Header(8, STATECHG_EVENT_REP, o) + [0x24, op, 0x07, 0, 1, av, 0x04, adm]
  }

  function SwFile(): (r: seq<byte>)
    ensures |r| == 28
  {
    [0x41, 0, 25, 0x42,
     0x12, 0, 8, 0x31, 0x32, 0x30, 0x61, 0x30, 0x30, 0x32, 0x30,
     0x13, 0, 10, 0x76, 0x32, 0x30, 0x39, 0x62, 0x32, 0x34, 0x64, 0x33, 0]
  }

  function SwActRequest(o: Object): (r: seq<byte>)
    ensures |r| == 40 && r[MDISC] == FOM && r[MSG_TYPE] == SW_ACT_REQ && r[OBJ_CLASS] == o.class_ && r[TS_NR] == o.ts
  {
    Header(28, SW_ACT_REQ, o) + SwFile()
  }

  const INIT_RSL_LINK: seq<byte> := [0, 25, 0xff, MANUF, PLACEMENT_ONLY, 0, 8, 12,
    0x63, 0x6f, 0x6d, 0x2e, 0x69, 0x70, 0x61, 0x63, 0x63, 0x65, 0x73, 0x73,
    0xe1, BASEB_TRANSC, 0, 0, 0xff, 0x81, 0x0b, 0xbb]

  const ID_ACK: seq<byte> := [0, 1, 0xfe, 0x06]

  const NULL_MESSAGE: seq<byte> := [0, 1, 0, 0x06]

  const ID_RESPONSE: seq<byte> := [0, 12, 0xfe, 0x05, 0x09, 0x08, 0x08, 0x31, 0x38, 0x30, 0x30, 0x2f, 0x30, 0x2f, 0x30]

  const PONG: seq<byte> := [0, 1, 0xfe, 0x01]
}
