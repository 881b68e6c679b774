/** What each request changes, how it is acknowledged, and what the reports of a run tell. */
module OmlReports {
  import opened Bytes
  import opened OmlMessages
  import opened OmlHandler
  import opened OmlBringUp

  /** The objects that have states. */
  datatype Item = Manager | Station | Baseband | Radio | Timeslot(ts: nat)

  predicate Known(item: Item) {
    item.Timeslot? ==> item.ts < CHANNELS
  }

  function Op(s: State, item: Item): byte
    requires StateOk(s) && Known(item)
  {
    match item
    case Manager => s.managerOp
    case Station => s.btsOp
    case Baseband => s.basebandOp
    case Radio => s.radioOp
    case Timeslot(ts) => s.channelOp[ts]
  }

  function Adm(s: State, item: Item): byte
    requires StateOk(s) && Known(item)
  {
    match item
    case Manager => s.managerAdm
    case Station => s.btsAdm
    case Baseband => s.basebandAdm
    case Radio => s.radioAdm
    case Timeslot(ts) => s.channelAdm[ts]
  }

  /** Request `r` is about `item`. */
  predicate Addresses(r: seq<byte>, item: Item)
    requires RequestOk(r)
  {
    match item
    case Manager => r[OBJ_CLASS] == 0x00
    case Station => r[OBJ_CLASS] == 0x01
    case Radio => r[OBJ_CLASS] == 0x02
    case Timeslot(ts) => r[OBJ_CLASS] == 0x03 && r[TS_NR] as int == ts
    case Baseband => r[OBJ_CLASS] == 0x04
  }

  /** A request to set the administrative state of an object that has one to set. */
  predicate Sets(r: seq<byte>, item: Item)
    requires RequestOk(r)
  {
    r[MSG_TYPE] == 0x69 && Addresses(r, item) && item != Manager
  }

  predicate Starts(r: seq<byte>, item: Item)
    requires RequestOk(r)
  {
    r[MSG_TYPE] == 0x74 && Addresses(r, item)
  }

  /** Exactly the state that a request names of exactly the object it addresses changes, to what it
      asks for; starting the site manager also unlocks it. */
  lemma RequestChanges(s: State, r: seq<byte>, item: Item)
    requires StateOk(s) && RequestOk(r) && Known(item)
    ensures var t := HandleInPlace(s, r).0;
      && Op(t, item) == (if Starts(r, item) then 0x02 else Op(s, item))
      && Adm(t, item) ==
         (if Sets(r, item) then r[13] else if Starts(r, item) && item == Manager then 0x02 else Adm(s, item))
  {
    hide Short, StateReport, SwActRequest, ForChannels, StartedBatch, ByDiscriminator;
  }

  /** The rest of the state: which software messages have come, and that the controller asked for
      the identity. */
  lemma RequestMarks(s: State, r: seq<byte>)
    requires StateOk(s) && RequestOk(r)
    ensures var t, ty, class_ := HandleInPlace(s, r).0, r[MSG_TYPE], r[OBJ_CLASS];
      && t.identified == s.identified
      && t.swSite == (if class_ == 0x00 && (ty == 0x0b || ty == 0x0d) then ty else s.swSite)
      && t.swBts == (if class_ == 0x01 && ty == 0x0b then 0x0b else if ty == 0x41 then 0x42 else s.swBts)
  {
    hide Short, StateReport, SwActRequest, ForChannels, StartedBatch, ByDiscriminator;
  }

  /** Messages also name timeslots that have no state. */
  predicate Named(item: Item) {
    item.Timeslot? ==> item.ts < 256
  }

  /** The class and instance bytes of an object. */
  function Place(item: Item): (p: seq<byte>)
    requires Named(item)
    ensures |p| == 4
  {
    match item
    case Manager => [0x00, 0xff, 0xff, 0xff]
    case Station => [0x01, 0, 0xff, 0xff]
    case Radio => [0x02, 0, 0, 0xff]
    case Timeslot(ts) => [0x03, 0, 0, ts as byte]
    case Baseband => [0x04, 0, 0, 0xff]
  }

  /** A message without attributes about an object, and a report of its states, byte by byte. */
  function Notice(ty: byte, item: Item): Packet
    requires Named(item)
  {
    ToOml([0, 9, 0xff, 0x80, 0x80, 0, 5, ty] + Place(item))
  }

  function Told(item: Item, op: byte, av: byte, adm: byte): Packet
    requires Named(item)
  {
    ToOml([0, 17, 0xff, 0x80, 0x80, 0, 13, 0x61] + Place(item) + [0x24, op, 0x07, 0, 1, av, 0x04, adm])
  }

  /** A request to activate the software of an object, which announces it. */
  function Asking(item: Item): Packet
    requires Named(item)
  {
    ToOml([0, 37, 0xff, 0x80, 0x80, 0, 33, 0x0a] + Place(item) + SwFile())
  }

  function ObjectOf(item: Item): Object
    requires Named(item)
  {
    match item
    case Manager => THE_SITE_MANAGER
    case Station => THE_BTS
    case Baseband => THE_BASEBAND
    case Radio => THE_RADIO
    case Timeslot(ts) => Channel(ts as byte)
  }

  lemma BuiltNotice(item: Item, ty: byte)
    requires Named(item)
    ensures ToOml(Short(ty, ObjectOf(item))) == Notice(ty, item)
  {
    match item {
      case Manager =>
      case Station =>
      case Baseband =>
      case Radio =>
      case Timeslot(ts) =>
    }
  }

  lemma BuiltAsking(item: Item)
    requires Named(item)
    ensures ToOml(SwActRequest(ObjectOf(item))) == Asking(item)
  {
    match item {
      case Manager =>
      case Station =>
      case Baseband =>
      case Radio =>
      case Timeslot(ts) =>
    }
  }

  lemma BuiltReport(item: Item, op: byte, av: byte, adm: byte)
    requires Named(item)
    ensures ToOml(StateReport(ObjectOf(item), op, av, adm)) == Told(item, op, av, adm)
  {
    match item {
      case Manager =>
      case Station =>
      case Baseband =>
      case Radio =>
      case Timeslot(ts) =>
    }
  }

  /** The acknowledgement of a request by its type: what the source sends for it. */
  function AckType(ty: byte): byte {
    if ty == 0x0d then 0x0e else if ty == 0x74 then 0x75 else if ty == 0x69 then 0x6a else 0x42
  }

  /** Request `r` is acknowledged: one that sets attributes always, the others if they address an object
      that they can be about. */
  predicate Acked(r: seq<byte>)
    requires RequestOk(r)
  {
    var ty, class_ := r[MSG_TYPE], r[OBJ_CLASS];
    || ((ty == 0x0d || ty == 0x74) && class_ <= 0x04) || (ty == 0x69 && 0x01 <= class_ <= 0x04)
    || ty == 0x41 || ty == 0x44 || ty == 0x47
  }

  /** The object that the acknowledgement is about. */
  function AckItem(r: seq<byte>): (item: Item)
    requires RequestOk(r) && Acked(r)
    ensures Named(item)
    ensures r[MSG_TYPE] == 0x0d || r[MSG_TYPE] == 0x74 || r[MSG_TYPE] == 0x69 ==> Known(item) && Addresses(r, item)
  {
    var ty, class_ := r[MSG_TYPE], r[OBJ_CLASS];
    if ty == 0x41 then Station
    else if ty == 0x44 then Radio
    else if ty == 0x47 then Timeslot(r[TS_NR] as nat)
    else if class_ == 0x00 then Manager
    else if class_ == 0x01 then Station
    else if class_ == 0x02 then Radio
    else if class_ == 0x03 then Timeslot(r[TS_NR] as nat)
    else Baseband
  }

  predicate IsAck(p: Packet) {
    && p.ToOml? && |p.bytes| == 12
    && (p.bytes[7] == 0x0e || p.bytes[7] == 0x75 || p.bytes[7] == 0x42 || p.bytes[7] == 0x6a)
  }

  predicate IsReport(p: Packet) {
    p.ToOml? && |p.bytes| == 20 && p.bytes[7] == 0x61
  }

  /** The report of an object as it is in state `t`. */
  function Now(t: State, item: Item): Packet
    requires StateOk(t) && Known(item)
  {
    Told(item, Op(t, item), 0xff, Adm(t, item))
  }

  /** The report that follows the activation of an object's software. */
  function Activation(item: Item): Packet
    requires Named(item)
  {
    if item == Manager then Told(item, 0x02, 0xff, 0x01) else Told(item, 0x01, 0x05, 0x01)
  }

  /** Neither an acknowledgement nor a report. */
  predicate Other(p: Packet) {
    !IsAck(p) && !IsReport(p)
  }

  lemma Kinds(item: Item, ty: byte, op: byte, av: byte, adm: byte, o: Object)
    requires Named(item)
    ensures IsAck(Notice(ty, item)) <==> ty == 0x0e || ty == 0x75 || ty == 0x42 || ty == 0x6a
    ensures !IsReport(Notice(ty, item)) && IsReport(Told(item, op, av, adm)) && !IsAck(Told(item, op, av, adm))
    ensures Other(ToOml(SwActRequest(o))) && (ty == 0x10 ==> Other(ToOml(Short(ty, o))))
    ensures Other(ToOml(INIT_RSL_LINK)) && Other(ToRsl(ID_ACK)) && Other(ToRsl(NULL_MESSAGE))
  {
  }

  lemma {:induction false} ChannelsTold(t: State, n: nat, i: nat)
    requires StateOk(t) && i < n <= CHANNELS
    ensures |ChannelReports(t, n)| == n && ChannelReports(t, n)[i] == Now(t, Timeslot(i))
  {
    if i < n - 1 {
      ChannelsTold(t, n - 1, i);
    } else {
      if n > 1 { ChannelsTold(t, n - 1, 0); }
      BuiltReport(Timeslot(i), t.channelOp[i], 0xff, t.channelAdm[i]);
    }
  }

  lemma ActivatedOne(s: State, r: seq<byte>)
    requires StateOk(s) && RequestOk(r) && r[MSG_TYPE] == 0x0d && r[OBJ_CLASS] <= 0x04
    ensures var ps, item := OnActivate(s, r[OBJ_CLASS], r[TS_NR]).1, AckItem(r);
      && |ps| > 1 && ps[0] == Notice(0x0e, item) && (forall k :: 1 < k < |ps| ==> Other(ps[k]))
      && if item == Baseband || item == Radio then Other(ps[1]) else ps[1] == Activation(item)
  {
    var item := AckItem(r);
    BuiltNotice(item, 0x0e);
    BuiltReport(item, 0x02, 0xff, 0x01);
    BuiltReport(item, 0x01, 0x05, 0x01);
    Kinds(item, 0x10, 0, 0, 0, THE_RADIO);
    forall ts: byte
      ensures Other(ToOml(RequestedChannel(ts))) && Other(ToOml(ActivatedChannel(ts)))
    {
      Kinds(item, 0x10, 0, 0, 0, Channel(ts));
    }
    hide Short, StateReport, SwActRequest, Notice, Told, Other, RequestedChannel, ActivatedChannel;
  }

  /** An activation of software: acknowledged, with a report for site manager, BTS and channels. */
  lemma Activated(s: State, r: seq<byte>)
    requires StateOk(s) && RequestOk(r) && r[MSG_TYPE] == 0x0d && r[OBJ_CLASS] <= 0x04
    ensures var ps, item := HandleInPlace(s, r).1, AckItem(r);
      && |ps| > 1 && ps[0] == Notice(0x0e, item) && (forall k :: 1 < k < |ps| ==> Other(ps[k]))
      && if item == Baseband || item == Radio then Other(ps[1]) else ps[1] == Activation(item)
  {
    ActivatedOne(s, r);
    AnswersType(s, r);
    assert ByType(s, r) == OnActivate(s, r[OBJ_CLASS], r[TS_NR]);
    hide HandleInPlace, ByType, OnActivate, Other, Activation, Notice;
  }

  /** A start of another object than channel 7. */
  lemma StartedOne(s: State, r: seq<byte>)
    requires StateOk(s) && RequestOk(r) && r[MSG_TYPE] == 0x74 && r[OBJ_CLASS] <= 0x04 && AckItem(r) != Timeslot(7)
    ensures var ps := OnOpstart(s, r[OBJ_CLASS], r[TS_NR]).1;
      ps != [] && ps[0] == Notice(0x75, AckItem(r)) && forall k :: 0 < k < |ps| ==> Other(ps[k])
  {
    BuiltNotice(AckItem(r), 0x75);
    Kinds(AckItem(r), 0x10, 0, 0, 0, THE_BTS);
    Kinds(AckItem(r), 0x10, 0, 0, 0, THE_BASEBAND);
    Kinds(AckItem(r), 0x10, 0, 0, 0, THE_SITE_MANAGER);
    hide Short, StateReport, SwActRequest, Notice, Other, StartedBatch;
  }

  /** The start of channel 7 brings the reports of site manager, BTS and all channels, as they then are. */
  lemma StartedLast(s: State, r: seq<byte>)
    requires StateOk(s) && RequestOk(r) && r[MSG_TYPE] == 0x74 && r[OBJ_CLASS] <= 0x04 && AckItem(r) == Timeslot(7)
    ensures var (t, ps) := OnOpstart(s, r[OBJ_CLASS], r[TS_NR]);
      && StateOk(t) && |ps| == 13 && ps[0] == Notice(0x75, AckItem(r)) && Other(ps[1]) && Other(ps[12])
      && ps[2] == Now(t, Manager) && ps[3] == Now(t, Station)
      && forall i :: 4 <= i < 12 ==> ps[i] == Now(t, Timeslot(i - 4))
  {
    BuiltNotice(AckItem(r), 0x75);
    var (t, ps) := OnOpstart(s, r[OBJ_CLASS], r[TS_NR]);
    BatchTold(t);
    hide Short, Notice, Other, StartedBatch, Now;
    assert ps == [ToOml(Short(OPSTART_ACK, Channel(7)))] + StartedBatch(t);
  }

  lemma BatchTold(t: State)
    requires StateOk(t)
    ensures var ps := StartedBatch(t);
      && |ps| == 12 && Other(ps[0]) && ps[1] == Now(t, Manager) && ps[2] == Now(t, Station) && Other(ps[11])
      && forall i :: 3 <= i < 11 ==> ps[i] == Now(t, Timeslot(i - 3))
  {
    Kinds(Radio, 0x10, 0, 0, 0, THE_RADIO);
    Kinds(Radio, 0x10, 0, 0, 0, THE_BASEBAND);
    BuiltReport(Manager, t.managerOp, 0xff, t.managerAdm);
    BuiltReport(Station, t.btsOp, 0xff, t.btsAdm);
    forall i: nat | i < CHANNELS
      ensures |ChannelReports(t, CHANNELS)| == CHANNELS && ChannelReports(t, CHANNELS)[i] == Now(t, Timeslot(i))
    {
      ChannelsTold(t, CHANNELS, i);
    }
    ChannelsTold(t, CHANNELS, 0);
    hide Short, StateReport, Told, Other, ChannelReports, Notice;
  }

  /** A start: acknowledged; only that of channel 7 brings reports. */
  lemma Started(s: State, r: seq<byte>)
    requires StateOk(s) && RequestOk(r) && r[MSG_TYPE] == 0x74 && r[OBJ_CLASS] <= 0x04
    ensures var (t, ps) := HandleInPlace(s, r); var item := AckItem(r);
      && ps != [] && ps[0] == Notice(0x75, item)
      && (item != Timeslot(7) ==> forall k :: 0 < k < |ps| ==> Other(ps[k]))
      && (item == Timeslot(7) ==>
            && |ps| == 13 && Other(ps[1]) && ps[2] == Now(t, Manager) && ps[3] == Now(t, Station) && Other(ps[12])
            && forall i :: 4 <= i < 12 ==> ps[i] == Now(t, Timeslot(i - 4)))
  {
    AnswersType(s, r);
    assert ByType(s, r) == OnOpstart(s, r[OBJ_CLASS], r[TS_NR]);
    hide HandleInPlace, ByType, OnOpstart, Other, Now, Notice;
    if AckItem(r) == Timeslot(7) {
      StartedLast(s, r);
    } else {
      StartedOne(s, r);
    }
  }

  /** All that an activation brings: the baseband transceiver announces the radio carrier, that announces
      the channels, and channel 7 reports the software of all channels as activated. */
  lemma ActivatedExactly(s: State, r: seq<byte>)
    requires StateOk(s) && RequestOk(r) && r[MSG_TYPE] == 0x0d && r[OBJ_CLASS] <= 0x04
    ensures var ps, item := HandleInPlace(s, r).1, AckItem(r);
      && (item == Baseband ==> |ps| == 2 && ps[1] == Asking(Radio))
      && (item == Radio ==> |ps| == 9 && forall i :: 1 <= i < 9 ==> ps[i] == Asking(Timeslot(i - 1)))
      && (item == Timeslot(7) ==> |ps| == 10 && forall i :: 2 <= i < 10 ==> ps[i] == Notice(0x10, Timeslot(i - 2)))
      && (item != Radio && item != Timeslot(7) ==> |ps| == 2)
  {
    AnswersType(s, r);
    assert ByType(s, r) == OnActivate(s, r[OBJ_CLASS], r[TS_NR]);
    BuiltAsking(Radio);
    forall ts: byte
      ensures ToOml(RequestedChannel(ts)) == Asking(Timeslot(ts as nat))
      ensures ToOml(ActivatedChannel(ts)) == Notice(0x10, Timeslot(ts as nat))
    {
      BuiltAsking(Timeslot(ts as nat));
      BuiltNotice(Timeslot(ts as nat), 0x10);
    }
    hide Short, StateReport, SwActRequest, Notice, RequestedChannel, ActivatedChannel, Asking, HandleInPlace, ByType;
  }

  /** All that a start brings: site manager and BTS report their software as activated and announce the
      next object; with channel 7 the radio carrier and the baseband transceiver are reported activated. */
  lemma StartedExactly(s: State, r: seq<byte>)
    requires StateOk(s) && RequestOk(r) && r[MSG_TYPE] == 0x74 && r[OBJ_CLASS] <= 0x04
    ensures var ps, item := HandleInPlace(s, r).1, AckItem(r);
      && ps != []
      && (item == Manager ==> ps[1..] == [Notice(0x10, Manager), Asking(Station)])
      && (item == Station ==> ps[1..] == [Notice(0x10, Station), Asking(Baseband)])
      && (item == Baseband || item == Radio || (item.Timeslot? && item.ts != 7) ==> |ps| == 1)
      && (item == Timeslot(7) ==> |ps| == 13 && ps[1] == Notice(0x10, Radio) && ps[12] == Notice(0x10, Baseband))
  {
    AnswersType(s, r);
    assert ByType(s, r) == OnOpstart(s, r[OBJ_CLASS], r[TS_NR]);
    BuiltNotice(Manager, 0x10);
    BuiltNotice(Station, 0x10);
    BuiltNotice(Radio, 0x10);
    BuiltNotice(Baseband, 0x10);
    BuiltAsking(Station);
    BuiltAsking(Baseband);
    ChannelsTold(OnOpstart(s, r[OBJ_CLASS], r[TS_NR]).0, CHANNELS, 0);
    hide Short, StateReport, SwActRequest, Notice, Asking, HandleInPlace, ByType, ChannelReports, Now;
  }

  /** All other requests that are acknowledged: nothing else is sent. */
  lemma OnlyAcked(s: State, r: seq<byte>)
    requires StateOk(s) && RequestOk(r) && Acked(r) && r[MSG_TYPE] != 0x0d && r[MSG_TYPE] != 0x74
    ensures HandleInPlace(s, r).1 == [Notice(AckType(r[MSG_TYPE]), AckItem(r))]
  {
    BuiltNotice(AckItem(r), AckType(r[MSG_TYPE]));
    AnswersType(s, r);
    hide Short, Notice, OnActivate, OnOpstart, HandleInPlace;
    assert ByType(s, r).1 == [Notice(AckType(r[MSG_TYPE]), AckItem(r))];
  }

  lemma NotAcked(s: State, r: seq<byte>)
    requires StateOk(s) && RequestOk(r) && !Acked(r)
    ensures ByType(s, r).1 == []
  {
    hide Short, StateReport, SwActRequest, ForChannels, StartedBatch;
  }

  lemma AnswersType(s: State, r: seq<byte>)
    requires StateOk(s) && RequestOk(r)
    ensures var replies := ByType(s, r).1;
      && HandleInPlace(s, r).0 == ByType(s, r).0
      && (replies != [] ==> HandleInPlace(s, r).1 == replies)
      && (replies == [] ==> HandleInPlace(s, r).1 == ByDiscriminator(ByType(s, r).0, r[MDISC]))
  {
    hide ByType;
    assert ByType(s, r).1 + [] == ByType(s, r).1 && [] + ByDiscriminator(ByType(s, r).0, r[MDISC]) ==
      ByDiscriminator(ByType(s, r).0, r[MDISC]);
  }

  /** What a request of the manufacturer's brings that calls for no reply by its type: five messages,
      among them the reports of baseband transceiver and radio carrier as they are. */
  lemma Manufacturer(s: State, r: seq<byte>)
    requires StateOk(s) && RequestOk(r) && !Acked(r)
    ensures var (t, ps) := HandleInPlace(s, r);
      if r[3] == 0x10 then
        |ps| == 5 && ps[1] == Now(t, Baseband) && ps[2] == Now(t, Radio) && Other(ps[0]) && Other(ps[3]) && Other(ps[4])
        && ps[0] == ToOml(INIT_RSL_LINK) && ps[3] == ToRsl([0, 1, 0xfe, 0x06]) && ps[4] == ToRsl([0, 1, 0, 0x06])
      else ps == []
  {
    NotAcked(s, r);
    AnswersType(s, r);
    var t := ByType(s, r).0;
    BuiltReport(Baseband, t.basebandOp, 0xff, t.basebandAdm);
    BuiltReport(Radio, t.radioOp, 0xff, t.radioAdm);
    Kinds(Radio, 0, 0, 0, 0, THE_RADIO);
    hide ByType, StateReport, Told, Other, HandleInPlace;
  }

  /** Exactly the requests that are acknowledged get an acknowledgement, as their first reply and only
      once; it has the type that belongs to the request, and object and timeslot of the request. */
  lemma Acknowledged(s: State, r: seq<byte>)
    requires StateOk(s) && RequestOk(r)
    ensures var ps := HandleInPlace(s, r).1;
      && (Acked(r) ==> ps != [] && ps[0] == Notice(AckType(r[MSG_TYPE]), AckItem(r)))
      && forall k :: (if Acked(r) then 1 else 0) <= k < |ps| ==> !IsAck(ps[k])
  {
    if !Acked(r) {
      NotAcks(HandleInPlace(s, r).0);
      Manufacturer(s, r);
    } else if r[MSG_TYPE] == 0x0d {
      ActivatedAcks(s, r);
    } else if r[MSG_TYPE] == 0x74 {
      NotAcks(HandleInPlace(s, r).0);
      Started(s, r);
    } else {
      OnlyAcked(s, r);
    }
    hide HandleInPlace, IsAck, IsReport, Told, Notice, Now, AckItem;
  }

  lemma ActivatedAcks(s: State, r: seq<byte>)
    requires StateOk(s) && RequestOk(r) && r[MSG_TYPE] == 0x0d && r[OBJ_CLASS] <= 0x04
    ensures var ps := HandleInPlace(s, r).1;
      ps != [] && ps[0] == Notice(0x0e, AckItem(r)) && forall k :: 0 < k < |ps| ==> !IsAck(ps[k])
  {
    Activated(s, r);
    Kinds(AckItem(r), 0, 0x02, 0xff, 0x01, THE_RADIO);
    Kinds(AckItem(r), 0, 0x01, 0x05, 0x01, THE_RADIO);
    hide HandleInPlace, IsAck, IsReport, Told, Notice, Now, AckItem;
  }

  /** A request to activate the software of an object. */
  predicate Activates(r: seq<byte>)
    requires RequestOk(r)
  {
    r[MSG_TYPE] == 0x0d && Acked(r)
  }

  lemma NotAcks(t: State)
    requires StateOk(t)
    ensures forall item: Item :: Known(item) ==> !IsAck(Now(t, item)) && IsReport(Now(t, item))
  {
    forall item: Item | Known(item)
      ensures !IsAck(Now(t, item)) && IsReport(Now(t, item))
    {
      Kinds(item, 0, Op(t, item), 0xff, Adm(t, item), THE_RADIO);
    }
  }

  /** Every report that a request brings, other than an activation of software, tells the states of
      its object as they are when the request is done. */
  lemma ReportsTellNow(s: State, r: seq<byte>, k: nat)
    requires StateOk(s) && RequestOk(r) && !Activates(r)
    requires k < |HandleInPlace(s, r).1| && IsReport(HandleInPlace(s, r).1[k])
    ensures var (t, ps) := HandleInPlace(s, r); exists item: Item :: Known(item) && ps[k] == Now(t, item)
  {
    if !Acked(r) {
      Manufacturer(s, r);
    } else if r[MSG_TYPE] == 0x74 {
      Started(s, r);
      Kinds(AckItem(r), 0x75, 0, 0, 0, THE_RADIO);
    } else {
      OnlyAcked(s, r);
      Kinds(AckItem(r), AckType(r[MSG_TYPE]), 0, 0, 0, THE_RADIO);
    }
    hide HandleInPlace, IsAck, IsReport, Told, Notice, Now, AckItem;
  }

  /** The first identity request brings a report of each object as not installed, in this order. */
  lemma IdentityTells(s: State)
    requires StateOk(s) && !s.identified
    ensures var ps := HandleLink(s, 0x04).1;
      && |ps| == 14 && ps[1] == Told(Manager, 0x01, 0x07, 0x01) && ps[2] == Told(Station, 0x01, 0x07, 0x01)
      && ps[3] == Told(Baseband, 0x01, 0x07, 0x01) && ps[12] == Told(Radio, 0x01, 0x07, 0x01)
      && forall i :: 4 <= i < 12 ==> ps[i] == Told(Timeslot(i - 4), 0x01, 0x07, 0x01)
  {
    BuiltReport(Manager, 0x01, 0x07, 0x01);
    BuiltReport(Station, 0x01, 0x07, 0x01);
    BuiltReport(Baseband, 0x01, 0x07, 0x01);
    BuiltReport(Radio, 0x01, 0x07, 0x01);
    hide StateReport, Told, SwActRequest;
    var channels := ForChannels(InitialChannel, CHANNELS);
    forall i: nat | i < CHANNELS
      ensures channels[i] == Told(Timeslot(i), 0x01, 0x07, 0x01)
    {
      BuiltReport(Timeslot(i), 0x01, 0x07, 0x01);
      assert channels[i] == ToOml(InitialChannel(i as byte));
    }
  }

  /** The answer to the question for the identity: one tag, with "1800/0/0". */
  function Identity(): Packet {
    ToOml([0, 12, 0xfe, 0x05, 9, 8, 8, 0x31, 0x38, 0x30, 0x30, 0x2f, 0x30, 0x2f, 0x30])
  }

  /** The link protocol: a ping is answered by a pong, the identity each time it is asked for, and nothing
      else is; only the first of the questions for the identity changes anything. */
  lemma LinkReplies(s: State, command: byte)
    ensures command == 0 ==> HandleLink(s, command) == (s, [ToOml([0, 1, 0xfe, 0x01])])
    ensures command == 4 && s.identified ==> HandleLink(s, command) == (s, [Identity()])
    ensures command == 4 && !s.identified ==> var (t, ps) := HandleLink(s, command);
      && t == s.(identified := true, swSite := 0x0a)
      && |ps| == 14 && ps[0] == Identity() && ps[13] == Asking(Manager)
    ensures command != 0 && command != 4 ==> HandleLink(s, command) == (s, [])
  {
    BuiltAsking(Manager);
    hide StateReport, SwActRequest, Asking;
    assert ID_RESPONSE == Identity().bytes && PONG == [0, 1, 0xfe, 0x01];
    var channels := ForChannels(InitialChannel, CHANNELS);
    assert |channels| == 8 && |InitialReports()| == 12;
  }

  /** Inputs, in any order and from any controller, that are long enough. */
  predicate InputsOk(inputs: seq<Input>) {
    forall i :: 0 <= i < |inputs| && inputs[i].Request? ==> RequestOk(inputs[i].r)
  }

  /** The state after a run. */
  function Reached(inputs: seq<Input>): (s: State)
    requires InputsOk(inputs)
    ensures StateOk(s)
  {
    if inputs == [] then INITIAL else React(Reached(inputs[..|inputs| - 1]), inputs[|inputs| - 1]).0
  }

  /** The administrative state that was last asked for, or the first one; the site manager has been
      unlocked if it was started. */
  function LastAdm(inputs: seq<Input>, item: Item): byte
    requires InputsOk(inputs)
  {
    if inputs == [] then if item.Timeslot? && item.ts > 0 then 0 else 0x01
    else
      var n := |inputs| - 1;
      if inputs[n].Request? && Sets(inputs[n].r, item) then inputs[n].r[13]
      else if inputs[n].Request? && Starts(inputs[n].r, item) && item == Manager then 0x02
      else LastAdm(inputs[..n], item)
  }

  /** Enabled from the start of the object on. */
  function LastOp(inputs: seq<Input>, item: Item): byte
    requires InputsOk(inputs)
  {
    if exists i :: 0 <= i < |inputs| && inputs[i].Request? && Starts(inputs[i].r, item) then 0x02
    else if item.Timeslot? && item.ts > 0 then 0 else 0x01
  }

  /** On every run the states are those last asked for. */
  lemma {:induction false} StatesAre(inputs: seq<Input>, item: Item)
    requires InputsOk(inputs) && Known(item)
    ensures Op(Reached(inputs), item) == LastOp(inputs, item) && Adm(Reached(inputs), item) == LastAdm(inputs, item)
    decreases |inputs|
  {
    if inputs != [] {
      var n := |inputs| - 1;
      StatesAre(inputs[..n], item);
      LastOpMore(inputs, item);
      var s := Reached(inputs[..n]);
      match inputs[n] {
        case Link(command) => LinkKeeps(s, command, item);
        case Request(r) => RequestChanges(s, r, item);
      }
      hide HandleInPlace, HandleLink, LastOp, Op, Adm, Sets, Starts;
    }
  }

  lemma LinkKeeps(s: State, command: byte, item: Item)
    requires StateOk(s) && Known(item)
    ensures var t := HandleLink(s, command).0; StateOk(t) && Op(t, item) == Op(s, item) && Adm(t, item) == Adm(s, item)
  {
  }

  lemma LastOpMore(inputs: seq<Input>, item: Item)
    requires InputsOk(inputs) && inputs != []
    ensures var n := |inputs| - 1;
      LastOp(inputs, item) ==
      if inputs[n].Request? && Starts(inputs[n].r, item) then 0x02 else LastOp(inputs[..n], item)
  {
    hide Starts;
    var n := |inputs| - 1;
    if i :| 0 <= i < |inputs| && inputs[i].Request? && Starts(inputs[i].r, item) {
      if i < n { assert inputs[..n][i] == inputs[i]; }
    }
    if i :| 0 <= i < n && inputs[..n][i].Request? && Starts(inputs[..n][i].r, item) {
      assert inputs[i] == inputs[..n][i];
    }
  }

  /** The report of an object by what it was asked for. */
  function Asked(inputs: seq<Input>, item: Item): Packet
    requires InputsOk(inputs) && Known(item)
  {
    Told(item, LastOp(inputs, item), 0xff, LastAdm(inputs, item))
  }

  /** On every run each report that a request brings tells the administrative state last asked for and
      whether the object was started, that request included; only the report that answers an activation
      of software says the same whatever was asked for before. */
  lemma ReportsTell(inputs: seq<Input>, r: seq<byte>, k: nat)
    requires InputsOk(inputs) && RequestOk(r)
    requires k < |React(Reached(inputs), Request(r)).1| && IsReport(React(Reached(inputs), Request(r)).1[k])
    ensures var ps, all := React(Reached(inputs), Request(r)).1, inputs + [Request(r)];
      && InputsOk(all)
      && if Activates(r) then k == 1 && ps[k] == Activation(AckItem(r))
         else exists item: Item :: Known(item) && ps[k] == Asked(all, item)
  {
    var s, all := Reached(inputs), inputs + [Request(r)];
    assert all[..|inputs|] == inputs;
    AnswersType(s, r);
    if Activates(r) {
      ActivationReport(s, r, k);
    } else {
      ReportsTellNow(s, r, k);
      var t, ps := Reached(all), React(s, Request(r)).1;
      var item: Item :| Known(item) && ps[k] == Now(t, item);
      StatesAre(all, item);
      assert ps[k] == Asked(all, item);
    }
    hide HandleInPlace, Now, Asked, Told, IsReport, LastOp, LastAdm, Activation, Known;
  }

  lemma ActivationReport(s: State, r: seq<byte>, k: nat)
    requires StateOk(s) && RequestOk(r) && Activates(r)
    requires k < |HandleInPlace(s, r).1| && IsReport(HandleInPlace(s, r).1[k])
    ensures k == 1 && HandleInPlace(s, r).1[k] == Activation(AckItem(r))
  {
    Activated(s, r);
    Kinds(AckItem(r), 0x0e, 0, 0, 0, THE_RADIO);
    hide HandleInPlace, IsAck, IsReport, Told, Notice;
  }

  /** The start of channel 7 brings these reports, in this order. */
  lemma LastStartTells(inputs: seq<Input>, r: seq<byte>)
    requires InputsOk(inputs) && RequestOk(r) && Starts(r, Timeslot(7))
    ensures var ps, all := React(Reached(inputs), Request(r)).1, inputs + [Request(r)];
      && InputsOk(all) && |ps| == 13 && ps[2] == Asked(all, Manager) && ps[3] == Asked(all, Station)
      && forall i :: 4 <= i < 12 ==> ps[i] == Asked(all, Timeslot(i - 4))
  {
    var s, all := Reached(inputs), inputs + [Request(r)];
    assert all[..|inputs|] == inputs;
    Started(s, r);
    forall item: Item | Known(item)
      ensures Now(Reached(all), item) == Asked(all, item)
    {
      StatesAre(all, item);
    }
    hide HandleInPlace, Now, Asked, Other, Notice;
  }

  /** A request of the manufacturer's brings these. */
  lemma ManufacturerTells(inputs: seq<Input>, r: seq<byte>)
    requires InputsOk(inputs) && RequestOk(r) && !Acked(r) && r[3] == 0x10
    ensures var ps, all := React(Reached(inputs), Request(r)).1, inputs + [Request(r)];
      InputsOk(all) && |ps| == 5 && ps[1] == Asked(all, Baseband) && ps[2] == Asked(all, Radio)
  {
    var s, all := Reached(inputs), inputs + [Request(r)];
    assert all[..|inputs|] == inputs;
    Manufacturer(s, r);
    StatesAre(all, Baseband);
    StatesAre(all, Radio);
    hide HandleInPlace, Now, Other;
  }

  lemma ActivationBytes(item: Item)
    requires Named(item)
    ensures var p := Activation(item);
      p.ToOml? && |p.bytes| == 20 && p.bytes[13] == (if item == Manager then 0x02 else 0x01) && p.bytes[19] == 0x01
  {
  }

  /** The report that answers an activation of software tells the states that were asked for exactly if
      the object is locked, and started if it is the site manager, else not started. */
  lemma ActivationTells(inputs: seq<Input>, r: seq<byte>)
    requires InputsOk(inputs) && RequestOk(r) && Activates(r) && AckItem(r) != Baseband && AckItem(r) != Radio
    ensures var ps, all, item := React(Reached(inputs), Request(r)).1, inputs + [Request(r)], AckItem(r);
      && InputsOk(all) && |ps| > 1 && ps[1] == Activation(item)
      && (ps[1].bytes[13] == LastOp(all, item) && ps[1].bytes[19] == LastAdm(all, item) <==>
            LastOp(inputs, item) == (if item == Manager then 0x02 else 0x01) && LastAdm(inputs, item) == 0x01)
  {
    var all := inputs + [Request(r)];
    assert all[..|inputs|] == inputs;
    hide HandleInPlace, LastOp, Notice, Other, Reached;
    Activated(Reached(inputs), r);
    LastOpMore(all, AckItem(r));
    ActivationBytes(AckItem(r));
    assert LastAdm(all, AckItem(r)) == LastAdm(inputs, AckItem(r));
    assert LastOp(all, AckItem(r)) == LastOp(inputs, AckItem(r));
    hide LastAdm, Activation;
  }

  /** So a started channel whose software is activated again is reported as disabled. */
  lemma ActivationMisreports()
    ensures var again: seq<byte> := [0, 11, 0xff, 0x80, 0x80, 0, 7, 0x0d, 0x03, 0, 0, 3, 0, 0];
      && RequestOk(START_OF_THREE) && RequestOk(again)
      && var ps := React(Reached([Request(START_OF_THREE)]), Request(again)).1;
         |ps| > 1 && ps[1] == Told(Timeslot(3), 0x01, 0x05, 0x01)
    ensures InputsOk([Request(START_OF_THREE)]) && LastOp([Request(START_OF_THREE)], Timeslot(3)) == 0x02
  {
    var again: seq<byte> := [0, 11, 0xff, 0x80, 0x80, 0, 7, 0x0d, 0x03, 0, 0, 3, 0, 0];
    var inputs := [Request(START_OF_THREE)];
    assert inputs[0].Request? && Starts(inputs[0].r, Timeslot(3));
    assert AckItem(again) == Timeslot(3);
    hide HandleInPlace, Told, Reached;
    ActivationTells(inputs, again);
  }

  /** Opstart of channel 3. */
  const START_OF_THREE: seq<byte> := [0, 11, 0xff, 0x80, 0x80, 0, 7, 0x74, 0x03, 0, 0, 3, 0, 0]
}
