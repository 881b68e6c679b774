/** Handling O&M requests: on a copy of the request, and in the buffer that also takes the replies. */
module OmlHandler {
  import opened Bytes
  import opened OmlMessages
  import opened Sequences
  import Attributes = OmlAttributes

  const CHANNELS := 8

  /** The state that lasts over the whole run. */
  datatype State = State(
    swSite: byte, swBts: byte,
    managerOp: byte, managerAdm: byte,
    btsOp: byte, btsAdm: byte,
    basebandOp: byte, basebandAdm: byte,
    radioOp: byte, radioAdm: byte,
    channelOp: seq<byte>, channelAdm: seq<byte>,
    identified: bool)

  predicate StateOk(s: State) {
    |s.channelOp| == CHANNELS && |s.channelAdm| == CHANNELS
  }

  const INITIAL := State(0, 0, DISABLED, LOCKED, DISABLED, LOCKED, DISABLED, LOCKED, DISABLED, LOCKED,
                         [DISABLED, 0, 0, 0, 0, 0, 0, 0], [LOCKED, 0, 0, 0, 0, 0, 0, 0], false)

  /** A request that is long enough to have an attribute, about one of eight channels. */
  predicate RequestOk(r: seq<byte>) {
    |r| > DATA + 1 && (r[OBJ_CLASS] == CHANNEL ==> r[TS_NR] as int < CHANNELS)
  }

  /** The walk over the attributes of a request to set attributes comes to an end. */
  ghost predicate Attributed(r: seq<byte>)
    requires RequestOk(r)
  {
    r[MSG_TYPE] == SET_BTS_ATTR ==> exists chunks :: Walkable(r, chunks)
  }

  ghost predicate Walkable(r: seq<byte>, chunks: seq<seq<byte>>)
    requires RequestOk(r)
  {
    && Attributes.AllKnown(chunks) && Attributes.Tail(chunks) % 2 == 0 && Attributes.Holds(r, DATA, chunks)
    && |Flatten(chunks)| <= 250 && r[6] as int == 5 + |Flatten(chunks)|
  }

  function ForChannels(f: byte -> seq<byte>, n: nat): (r: seq<Packet>)
    requires n <= 256
    ensures |r| == n && forall i :: 0 <= i < n ==> r[i] == ToOml(f(i as byte))
  {
    if n == 0 then [] else ForChannels(f, n - 1) + [ToOml(f((n - 1) as byte))]
  }

  function ActivatedChannel(ts: byte): seq<byte> {
    Short(SW_ACTIVATED_REP, Channel(ts))
  }

  function RequestedChannel(ts: byte): seq<byte> {
    SwActRequest(Channel(ts))
  }

  function InitialChannel(ts: byte): seq<byte> {
    StateReport(Channel(ts), DISABLED, AV_NOT_INSTALLED, LOCKED)
  }

  /** The report of a channel as it is now. */
  function ChannelReports(s: State, n: nat): seq<Packet>
    requires StateOk(s) && n <= CHANNELS
  {
    if n == 0 then []
    else
      var last := Channel((n - 1) as byte);
      ChannelReports(s, n - 1) + [ToOml(StateReport(last, s.channelOp[n - 1], AV_OK, s.channelAdm[n - 1]))]
  }

  function OnActivate(s: State, class_: byte, ts: byte): (State, seq<Packet>) {
    if class_ == SITE_MANAGER then
      (s.(swSite := ACTIVATE_SW),
       [ToOml(Short(ACTIVATE_SW_ACK, THE_SITE_MANAGER)), ToOml(StateReport(THE_SITE_MANAGER, ENABLED, AV_OK, LOCKED))])
    else if class_ == BTS then
      (s, [ToOml(Short(ACTIVATE_SW_ACK, THE_BTS)), ToOml(StateReport(THE_BTS, DISABLED, AV_DEPENDENCY, LOCKED))])
    else if class_ == BASEB_TRANSC then
      (s, [ToOml(Short(ACTIVATE_SW_ACK, THE_BASEBAND)), ToOml(SwActRequest(THE_RADIO))])
    else if class_ == RADIO_CARRIER then
      (s, [ToOml(Short(ACTIVATE_SW_ACK, THE_RADIO))] + ForChannels(RequestedChannel, CHANNELS))
    else if class_ == CHANNEL then
      (s, [ToOml(Short(ACTIVATE_SW_ACK, Channel(ts))), ToOml(StateReport(Channel(ts), DISABLED, AV_DEPENDENCY, LOCKED))]
          + if ts == 7 then ForChannels(ActivatedChannel, CHANNELS) else [])
    else (s, [])
  }

  /** The messages that follow the start of channel 7. */
  function StartedBatch(s: State): seq<Packet>
    requires StateOk(s)
  {
    [ToOml(Short(SW_ACTIVATED_REP, THE_RADIO)),
     ToOml(StateReport(THE_SITE_MANAGER, s.managerOp, AV_OK, s.managerAdm)),
     ToOml(StateReport(THE_BTS, s.btsOp, AV_OK, s.btsAdm))]
    + ChannelReports(s, CHANNELS) + [ToOml(Short(SW_ACTIVATED_REP, THE_BASEBAND))]
  }

  function OnOpstart(s: State, class_: byte, ts: byte): (State, seq<Packet>)
    requires StateOk(s) && (class_ == CHANNEL ==> ts as int < CHANNELS)
  {
    if class_ == SITE_MANAGER then
      (s.(managerOp := ENABLED, managerAdm := UNLOCKED),
       [ToOml(Short(OPSTART_ACK, THE_SITE_MANAGER)), ToOml(Short(SW_ACTIVATED_REP, THE_SITE_MANAGER)),
        ToOml(SwActRequest(THE_BTS))])
    else if class_ == BTS then
      (s.(btsOp := ENABLED),
       [ToOml(Short(OPSTART_ACK, THE_BTS)), ToOml(Short(SW_ACTIVATED_REP, THE_BTS)), ToOml(SwActRequest(THE_BASEBAND))])
    else if class_ == BASEB_TRANSC then
      (s.(basebandOp := ENABLED), [ToOml(Short(OPSTART_ACK, THE_BASEBAND))])
    else if class_ == RADIO_CARRIER then
      (s.(radioOp := ENABLED), [ToOml(Short(OPSTART_ACK, THE_RADIO))])
    else if class_ == CHANNEL then
      var t := s.(channelOp := s.channelOp[ts as int := ENABLED]);
      (t, [ToOml(Short(OPSTART_ACK, Channel(ts)))] + if ts == 7 then StartedBatch(t) else [])
    else (s, [])
  }

  function OnChangeState(s: State, class_: byte, ts: byte, adm: byte): (State, seq<Packet>)
    requires StateOk(s) && (class_ == CHANNEL ==> ts as int < CHANNELS)
  {
    if class_ == BTS then (s.(btsAdm := adm), [ToOml(Short(CHG_ADM_STATE_ACK, THE_BTS))])
    else if class_ == BASEB_TRANSC then (s.(basebandAdm := adm), [ToOml(Short(CHG_ADM_STATE_ACK, THE_BASEBAND))])
    else if class_ == RADIO_CARRIER then (s.(radioAdm := adm), [ToOml(Short(CHG_ADM_STATE_ACK, THE_RADIO))])
    else if class_ == CHANNEL then
      (s.(channelAdm := s.channelAdm[ts as int := adm]), [ToOml(Short(CHG_ADM_STATE_ACK, Channel(ts)))])
    else (s, [])
  }

  /** What the type, object and attributes of a request call for. */
  function ByType(s: State, r: seq<byte>): (x: (State, seq<Packet>))
    requires StateOk(s) && RequestOk(r)
    ensures StateOk(x.0)
  {
    var class_, ts := r[OBJ_CLASS], r[TS_NR];
    if r[MSG_TYPE] == SW_ACT_REQ_ACK then
      (if class_ == SITE_MANAGER then s.(swSite := SW_ACT_REQ_ACK)
       else if class_ == BTS then s.(swBts := SW_ACT_REQ_ACK)
       else s, [])
    else if r[MSG_TYPE] == ACTIVATE_SW then OnActivate(s, class_, ts)
    else if r[MSG_TYPE] == OPSTART then OnOpstart(s, class_, ts)
    else if r[MSG_TYPE] == SET_BTS_ATTR then (s.(swBts := SET_BTS_ATTR_ACK), [ToOml(Short(SET_BTS_ATTR_ACK, THE_BTS))])
    else if r[MSG_TYPE] == SET_CHAN_ATTR then (s, [ToOml(Short(SET_BTS_ATTR_ACK, Channel(ts)))])
    else if r[MSG_TYPE] == SET_RADIO_ATTR then (s, [ToOml(Short(SET_BTS_ATTR_ACK, THE_RADIO))])
    else if r[MSG_TYPE] == CHG_ADM_STATE then OnChangeState(s, class_, ts, r[DATA + 1])
    else (s, [])
  }

  /** What the discriminator calls for. */
  function ByDiscriminator(s: State, mdisc: byte): seq<Packet> {
    if mdisc == MANUF then
      [ToOml(INIT_RSL_LINK),
       ToOml(StateReport(THE_BASEBAND, s.basebandOp, AV_OK, s.basebandAdm)),
       ToOml(StateReport(THE_RADIO, s.radioOp, AV_OK, s.radioAdm)),
       ToRsl(ID_ACK), ToRsl(NULL_MESSAGE)]
    else []
  }

  /** A handler that works on a copy of the request. */
  function Handle(s: State, r: seq<byte>): (x: (State, seq<Packet>))
    requires StateOk(s) && RequestOk(r)
    ensures StateOk(x.0)
  {
    var (t, replies) := ByType(s, r);
    (t, replies + ByDiscriminator(t, r[MDISC]))
  }

  /** The handler that builds its replies in the request's buffer: a reply overwrites the
      discriminator of the request. */
  function HandleInPlace(s: State, r: seq<byte>): (x: (State, seq<Packet>))
    requires StateOk(s) && RequestOk(r)
    ensures StateOk(x.0)
  {
    var (t, replies) := ByType(s, r);
    (t, replies + ByDiscriminator(t, if replies == [] then r[MDISC] else FOM))
  }

  /** The two agree on every formatted request; on others they agree unless the request is one of
      the manufacturer's that also calls for a reply by its type. */
  lemma InPlaceRefines(s: State, r: seq<byte>)
    requires StateOk(s) && RequestOk(r)
    ensures r[MDISC] == FOM ==> HandleInPlace(s, r) == Handle(s, r)
    ensures HandleInPlace(s, r) == Handle(s, r) <==> r[MDISC] != MANUF || ByType(s, r).1 == []
  {
    var (t, replies) := ByType(s, r);
    var a, b := ByDiscriminator(t, r[MDISC]), ByDiscriminator(t, FOM);
    if r[MDISC] == MANUF && replies != [] {
      assert |replies + a| == |replies| + 5 && |replies + b| == |replies|;
    }
  }

  /** A request of the manufacturer's that asks to start the site manager. */
  const MANUF_OPSTART: seq<byte> :=
    [0, 15, NONE, MANUF, PLACEMENT_ONLY, 0, 8, OPSTART, SITE_MANAGER, NONE, NONE, NONE, 0, 0]

  /** On a copy of it the handler also brings up the signalling link; in place it does not. */
  lemma ManufacturerDiffers(s: State)
    requires StateOk(s)
    ensures RequestOk(MANUF_OPSTART)
    ensures var copied, inPlace := Handle(s, MANUF_OPSTART), HandleInPlace(s, MANUF_OPSTART);
      && copied.0 == inPlace.0 && |inPlace.1| == 3 && |copied.1| == 8
      && copied.1[..3] == inPlace.1 && copied.1[3] == ToOml(INIT_RSL_LINK) && copied.1[6] == ToRsl(ID_ACK)
  {
    hide Short, StateReport, SwActRequest;
    var (t, replies) := ByType(s, MANUF_OPSTART);
    assert ByType(s, MANUF_OPSTART) == OnOpstart(s, SITE_MANAGER, NONE);
    assert |replies| == 3 && |ByDiscriminator(t, MANUF)| == 5;
  }

  /** Announcing the initial state of every object. */
  function InitialReports(): seq<Packet> {
    [ToOml(StateReport(THE_SITE_MANAGER, DISABLED, AV_NOT_INSTALLED, LOCKED)),
     ToOml(StateReport(THE_BTS, DISABLED, AV_NOT_INSTALLED, LOCKED)),
     ToOml(StateReport(THE_BASEBAND, DISABLED, AV_NOT_INSTALLED, LOCKED))]
    + ForChannels(InitialChannel, CHANNELS)
    + [ToOml(StateReport(THE_RADIO, DISABLED, AV_NOT_INSTALLED, LOCKED))]
  }

  const MSG_PING: byte := 0
  const MSG_ID_GET: byte := 4

  /** The link protocol: the first identity request starts the bring-up. */
  function HandleLink(s: State, command: byte): (State, seq<Packet>) {
    if command == MSG_PING then (s, [ToOml(PONG)])
    else if command == MSG_ID_GET then
      if s.identified then (s, [ToOml(ID_RESPONSE)])
      else (s.(identified := true, swSite := SW_ACT_REQ),
        [ToOml(ID_RESPONSE)] + InitialReports() + [ToOml(SwActRequest(THE_SITE_MANAGER))])
    else (s, [])
  }

  lemma TwoSent(sent: seq<Packet>, a: Packet, b: Packet)
    ensures (sent + [a]) + [b] == sent + [a, b] && sent + [a, b] != sent
  {
    assert |sent + [a, b]| == |sent| + 2;
  }

  lemma OneThenMore(sent: seq<Packet>, a: Packet, more: seq<Packet>)
    ensures (sent + [a]) + more == sent + ([a] + more) && sent + ([a] + more) != sent
  {
    assert |sent + ([a] + more)| > |sent|;
  }

  class Bts {
    /** The buffer for the message received and for those sent. */
    const msg: array<byte>
    var swSite: byte
    var swBts: byte
    var managerOp: byte
    var managerAdm: byte
    var btsOp: byte
    var btsAdm: byte
    var basebandOp: byte
    var basebandAdm: byte
    var radioOp: byte
    var radioAdm: byte
    const channelOp: array<byte>
    const channelAdm: array<byte>
    var identified: bool
    var sent: seq<Packet>

    ghost predicate Valid() {
      msg.Length >= 40 && channelOp.Length == CHANNELS && channelAdm.Length == CHANNELS
      && msg != channelOp && msg != channelAdm && channelOp != channelAdm
    }

    ghost function View(): (s: State)
      reads this, channelOp, channelAdm
      requires Valid()
      ensures StateOk(s)
    {
      State(swSite, swBts, managerOp, managerAdm, btsOp, btsAdm, basebandOp, basebandAdm, radioOp, radioAdm,
            channelOp[..], channelAdm[..], identified)
    }

    constructor ()
      ensures Valid() && View() == INITIAL && sent == []
    {
      msg := new byte[255](_ => 0);
      swSite, swBts := 0, 0;
      managerOp, managerAdm, btsOp, btsAdm := DISABLED, LOCKED, DISABLED, LOCKED;
      basebandOp, basebandAdm, radioOp, radioAdm := DISABLED, LOCKED, DISABLED, LOCKED;
      channelOp := new byte[8](i => if i == 0 then DISABLED else 0);
      channelAdm := new byte[8](i => if i == 0 then LOCKED else 0);
      identified := false;
      sent := [];
      new;
      assert channelOp[..] == INITIAL.channelOp && channelAdm[..] == INITIAL.channelAdm;
    }

    /** Writes the headers of a formatted message over what is in the buffer. */
    method WriteHeader(n: byte, ty: byte, o: Object)
      requires Valid() && n < 240
      modifies msg
      ensures msg[..DATA] == Header(n, ty, o) && msg[DATA..] == old(msg[DATA..])
    {
      msg[0] := 0;
      msg[1] := n + 9;
      msg[2] := 0xff;
      msg[3] := FOM;
      msg[4] := PLACEMENT_ONLY;
      msg[5] := 0;
      msg[6] := n + 5;
      msg[7] := ty;
      msg[8] := o.class_;
      msg[9] := o.bts;
      msg[10] := o.trx;
      msg[11] := o.ts;
    }

    /** `opstart_ack` and the other builders of messages without attributes. */
    method SendShort(ty: byte, o: Object)
      requires Valid()
      modifies msg, this`sent
      ensures msg[..DATA] == Short(ty, o) && msg[DATA..] == old(msg[DATA..])
      ensures sent == old(sent) + [ToOml(Short(ty, o))]
    {
      WriteHeader(0, ty, o);
      sent := sent + [ToOml(msg[..12])];
    }

    /** `state_changed_event_report`. */
    method SendStateReport(o: Object, op: byte, av: byte, adm: byte)
      requires Valid()
      modifies msg, this`sent
      ensures msg[..20] == StateReport(o, op, av, adm)
      ensures sent == old(sent) + [ToOml(StateReport(o, op, av, adm))]
    {
      WriteHeader(8, STATECHG_EVENT_REP, o);
      WriteState(op, av, adm);
      assert msg[..20] == msg[..DATA] + msg[DATA..20];
      sent := sent + [ToOml(msg[..20])];
    }

    /** The attributes of a state report. */
    method WriteState(op: byte, av: byte, adm: byte)
      requires Valid()
      modifies msg
      ensures msg[..DATA] == old(msg[..DATA]) && msg[DATA..20] == [0x24, op, 0x07, 0, 1, av, 0x04, adm]
    {
      msg[12] := 0x24;
      msg[13] := op;
      msg[14] := 0x07;
      msg[15] := 0;
      msg[16] := 1;
      msg[17] := av;
      msg[18] := 0x04;
      msg[19] := adm;
    }

    /** `sw_activate_request`. */
    method SendSwActRequest(o: Object)
      requires Valid()
      modifies msg, this`sent
      ensures msg[..40] == SwActRequest(o)
      ensures sent == old(sent) + [ToOml(SwActRequest(o))]
    {
      WriteHeader(28, SW_ACT_REQ, o);
      ghost var h := msg[..DATA];
      var file := SwFile();
      forall i | 0 <= i < 28 {
        msg[12 + i] := file[i];
      }
      assert msg[..40] == h + SwFile();
      sent := sent + [ToOml(msg[..40])];
    }
  
    /** What the builders leave of the headers. */
    ghost predicate Headed(ty: byte, o: Object)
      reads msg
      requires Valid()
    {
      msg[MDISC] == FOM && msg[MSG_TYPE] == ty && msg[OBJ_CLASS] == o.class_ && msg[TS_NR] == o.ts
    }

    lemma Heading(n: nat, p: seq<byte>)
      requires Valid() && DATA <= n <= msg.Length && msg[..n] == p
      ensures msg[MDISC] == p[MDISC] && msg[MSG_TYPE] == p[MSG_TYPE] && msg[OBJ_CLASS] == p[OBJ_CLASS] &&
        msg[TS_NR] == p[TS_NR]
    {
      assert msg[..n][MDISC] == p[MDISC] && msg[..n][MSG_TYPE] == p[MSG_TYPE] && msg[..n][OBJ_CLASS] == p[OBJ_CLASS] &&
        msg[..n][TS_NR] == p[TS_NR];
    }

    /** A short message that keeps object class and timeslot of the request where they are. */
    method Reply(ty: byte, o: Object)
      requires Valid()
      modifies msg, this`sent
      ensures Headed(ty, o) && sent == old(sent) + [ToOml(Short(ty, o))]
    {
      SendShort(ty, o);
      Heading(12, Short(ty, o));
    }

    method Report(o: Object, op: byte, av: byte, adm: byte)
      requires Valid()
      modifies msg, this`sent
      ensures Headed(STATECHG_EVENT_REP, o) && sent == old(sent) + [ToOml(StateReport(o, op, av, adm))]
    {
      SendStateReport(o, op, av, adm);
      Heading(20, StateReport(o, op, av, adm));
    }

    method Announce(o: Object)
      requires Valid()
      modifies msg, this`sent
      ensures Headed(SW_ACT_REQ, o) && sent == old(sent) + [ToOml(SwActRequest(o))]
    {
      SendSwActRequest(o);
      Heading(40, SwActRequest(o));
    }

    /** The case of `oml_msg` for Activate SW: it reads the request between its replies. */
    method ActivateSw()
      requires Valid() && (msg[OBJ_CLASS] == CHANNEL ==> msg[TS_NR] as int < CHANNELS)
      modifies msg, this`sent, this`swSite
      ensures var (t, replies) := OnActivate(old(View()), old(msg[OBJ_CLASS]), old(msg[TS_NR]));
        View() == t && sent == old(sent) + replies
      ensures msg[MDISC] == if sent == old(sent) then old(msg[MDISC]) else FOM
    {
      hide Short, StateReport, SwActRequest, ForChannels;
      ghost var sent0 := sent;
      if msg[OBJ_CLASS] == SITE_MANAGER {
        swSite := ACTIVATE_SW;
        Reply(ACTIVATE_SW_ACK, THE_SITE_MANAGER);
        Report(THE_SITE_MANAGER, ENABLED, AV_OK, LOCKED);
        TwoSent(sent0, ToOml(Short(ACTIVATE_SW_ACK, THE_SITE_MANAGER)),
          ToOml(StateReport(THE_SITE_MANAGER, ENABLED, AV_OK, LOCKED)));
      }
      if msg[OBJ_CLASS] == BTS {
        Reply(ACTIVATE_SW_ACK, THE_BTS);
        Report(THE_BTS, DISABLED, AV_DEPENDENCY, LOCKED);
        TwoSent(sent0, ToOml(Short(ACTIVATE_SW_ACK, THE_BTS)),
          ToOml(StateReport(THE_BTS, DISABLED, AV_DEPENDENCY, LOCKED)));
      }
      if msg[OBJ_CLASS] == BASEB_TRANSC {
        Reply(ACTIVATE_SW_ACK, THE_BASEBAND);
        Announce(THE_RADIO);
        TwoSent(sent0, ToOml(Short(ACTIVATE_SW_ACK, THE_BASEBAND)), ToOml(SwActRequest(THE_RADIO)));
        return;
      }
      if msg[OBJ_CLASS] == RADIO_CARRIER {
        Reply(ACTIVATE_SW_ACK, THE_RADIO);
        AnnounceChannels();
        OneThenMore(sent0, ToOml(Short(ACTIVATE_SW_ACK, THE_RADIO)), ForChannels(RequestedChannel, CHANNELS));
        return;
      }
      if msg[OBJ_CLASS] == CHANNEL {
        ActivateChannel();
      }
    }

    method AnnounceChannels()
      requires Valid() && msg[MDISC] == FOM
      modifies msg, this`sent
      ensures sent == old(sent) + ForChannels(RequestedChannel, CHANNELS) && msg[MDISC] == FOM
    {
      for channel := 0 to CHANNELS
        invariant sent == old(sent) + ForChannels(RequestedChannel, channel) && msg[MDISC] == FOM
      {
        Announce(Channel(channel as byte));
      }
    }

    method ReportActivated()
      requires Valid() && msg[MDISC] == FOM
      modifies msg, this`sent
      ensures sent == old(sent) + ForChannels(ActivatedChannel, CHANNELS) && msg[MDISC] == FOM
    {
      for channel := 0 to CHANNELS
        invariant sent == old(sent) + ForChannels(ActivatedChannel, channel) && msg[MDISC] == FOM
      {
        Reply(SW_ACTIVATED_REP, Channel(channel as byte));
      }
    }

    /** Activate SW for a channel. */
    method ActivateChannel()
      requires Valid() && msg[OBJ_CLASS] == CHANNEL && msg[TS_NR] as int < CHANNELS
      modifies msg, this`sent
      ensures sent == old(sent) + OnActivate(View(), CHANNEL, old(msg[TS_NR])).1 && msg[MDISC] == FOM
    {
      hide Short, StateReport, SwActRequest;
      ghost var sent0, ts := sent, msg[TS_NR];
      Reply(ACTIVATE_SW_ACK, Channel(msg[TS_NR]));
      Report(Channel(msg[TS_NR]), DISABLED, AV_DEPENDENCY, LOCKED);
      ghost var two := [ToOml(Short(ACTIVATE_SW_ACK, Channel(ts))),
        ToOml(StateReport(Channel(ts), DISABLED, AV_DEPENDENCY, LOCKED))];
      assert sent == sent0 + two;
      if msg[TS_NR] == 7 {
        ReportActivated();
        assert sent == sent0 + (two + ForChannels(ActivatedChannel, CHANNELS));
      } else {
        assert two + [] == two;
      }
    }

    /** The case for Opstart. */
    method Opstart()
      requires Valid() && (msg[OBJ_CLASS] == CHANNEL ==> msg[TS_NR] as int < CHANNELS)
      modifies msg, channelOp, this`sent, this`managerOp, this`managerAdm, this`btsOp, this`basebandOp, this`radioOp
      ensures var (t, replies) := OnOpstart(old(View()), old(msg[OBJ_CLASS]), old(msg[TS_NR]));
        View() == t && sent == old(sent) + replies
      ensures msg[MDISC] == if sent == old(sent) then old(msg[MDISC]) else FOM
    {
      hide Short, StateReport, SwActRequest, ForChannels, ChannelReports;
      ghost var sent0 := sent;
      if msg[OBJ_CLASS] == SITE_MANAGER {
        managerOp := ENABLED;
        managerAdm := UNLOCKED;
        Reply(OPSTART_ACK, THE_SITE_MANAGER);
        Reply(SW_ACTIVATED_REP, THE_SITE_MANAGER);
        Announce(THE_BTS);
        assert sent == sent0 + [ToOml(Short(OPSTART_ACK, THE_SITE_MANAGER)),
          ToOml(Short(SW_ACTIVATED_REP, THE_SITE_MANAGER)), ToOml(SwActRequest(THE_BTS))];
        return;
      }
      if msg[OBJ_CLASS] == BTS {
        btsOp := ENABLED;
        Reply(OPSTART_ACK, THE_BTS);
        Reply(SW_ACTIVATED_REP, THE_BTS);
        Announce(THE_BASEBAND);
        assert sent == sent0 + [ToOml(Short(OPSTART_ACK, THE_BTS)), ToOml(Short(SW_ACTIVATED_REP, THE_BTS)),
          ToOml(SwActRequest(THE_BASEBAND))];
        return;
      }
      if msg[OBJ_CLASS] == BASEB_TRANSC {
        basebandOp := ENABLED;
        Reply(OPSTART_ACK, THE_BASEBAND);
        return;
      }
      if msg[OBJ_CLASS] == RADIO_CARRIER {
        radioOp := ENABLED;
        Reply(OPSTART_ACK, THE_RADIO);
        return;
      }
      if msg[OBJ_CLASS] == CHANNEL {
        ghost var ts := msg[TS_NR];
        channelOp[msg[TS_NR] as int] := ENABLED;
        Reply(OPSTART_ACK, Channel(msg[TS_NR]));
        if msg[TS_NR] == 7 {
          ReportStarted();
          assert sent == sent0 + ([ToOml(Short(OPSTART_ACK, Channel(ts)))] + StartedBatch(View()));
        } else {
          assert [ToOml(Short(OPSTART_ACK, Channel(ts)))] + [] == [ToOml(Short(OPSTART_ACK, Channel(ts)))];
        }
      }
    }

    /** What is sent when channel 7 was started. */
    method ReportStarted()
      requires Valid() && msg[MDISC] == FOM
      modifies msg, this`sent
      ensures sent == old(sent) + StartedBatch(View()) && msg[MDISC] == FOM
    {
      hide Short, StateReport;
      ghost var s, sent0 := View(), sent;
      Reply(SW_ACTIVATED_REP, THE_RADIO);
      Report(THE_SITE_MANAGER, managerOp, AV_OK, managerAdm);
      Report(THE_BTS, btsOp, AV_OK, btsAdm);
      ghost var three := [ToOml(Short(SW_ACTIVATED_REP, THE_RADIO)),
        ToOml(StateReport(THE_SITE_MANAGER, s.managerOp, AV_OK, s.managerAdm)),
        ToOml(StateReport(THE_BTS, s.btsOp, AV_OK, s.btsAdm))];
      assert sent == sent0 + three;
      for channel := 0 to CHANNELS
        invariant sent == sent0 + (three + ChannelReports(s, channel)) && msg[MDISC] == FOM && View() == s
      {
        Report(Channel(channel as byte), channelOp[channel], AV_OK, channelAdm[channel]);
        assert sent == sent0 + (three + ChannelReports(s, channel + 1));
      }
      Reply(SW_ACTIVATED_REP, THE_BASEBAND);
      assert sent == sent0 + StartedBatch(s);
    }

    /** The case for Change Administrative State. */
    method ChangeState()
      requires Valid() && (msg[OBJ_CLASS] == CHANNEL ==> msg[TS_NR] as int < CHANNELS)
      modifies msg, channelAdm, this`sent, this`btsAdm, this`basebandAdm, this`radioAdm
      ensures var (t, replies) := OnChangeState(old(View()), old(msg[OBJ_CLASS]), old(msg[TS_NR]), old(msg[DATA + 1]));
        View() == t && sent == old(sent) + replies
      ensures msg[MDISC] == if sent == old(sent) then old(msg[MDISC]) else FOM
    {
      hide Short;
      if msg[OBJ_CLASS] == BTS {
        btsAdm := msg[DATA + 1];
        Reply(CHG_ADM_STATE_ACK, THE_BTS);
        return;
      }
      if msg[OBJ_CLASS] == BASEB_TRANSC {
        basebandAdm := msg[DATA + 1];
        Reply(CHG_ADM_STATE_ACK, THE_BASEBAND);
        return;
      }
      if msg[OBJ_CLASS] == RADIO_CARRIER {
        radioAdm := msg[DATA + 1];
        Reply(CHG_ADM_STATE_ACK, THE_RADIO);
        return;
      }
      if msg[OBJ_CLASS] == CHANNEL {
        channelAdm[msg[TS_NR] as int] := msg[DATA + 1];
        Reply(CHG_ADM_STATE_ACK, Channel(msg[TS_NR]));
      }
    }

    /** The first switch of `oml_msg`, on the message type. */
    method OnMessageType()
      requires Valid() && RequestOk(msg[..]) && Attributed(msg[..])
      modifies this, msg, channelOp, channelAdm
      ensures var (t, replies) := ByType(old(View()), old(msg[..]));
        && View() == t && sent == old(sent) + replies
        && msg[MDISC] == if replies == [] then old(msg[MDISC]) else FOM
    {
      hide Short, StateReport, SwActRequest, OnActivate, OnOpstart, OnChangeState;
      ghost var r, s, sent0 := msg[..], View(), sent;
      var ty := msg[MSG_TYPE];
      if ty == SW_ACT_REQ_ACK {
        if msg[OBJ_CLASS] == SITE_MANAGER { swSite := SW_ACT_REQ_ACK; }
        if msg[OBJ_CLASS] == BTS { swBts := SW_ACT_REQ_ACK; }
      } else if ty == ACTIVATE_SW {
        ActivateSw();
      } else if ty == OPSTART {
        Opstart();
      } else if ty == SET_BTS_ATTR {
        ghost var chunks :| Walkable(r, chunks);
        var _ := Attributes.BtsGetAttr(msg, chunks);
        Reply(SET_BTS_ATTR_ACK, THE_BTS);
        swBts := SET_BTS_ATTR_ACK;
      } else if ty == SET_CHAN_ATTR {
        Reply(SET_BTS_ATTR_ACK, Channel(msg[TS_NR]));
      } else if ty == SET_RADIO_ATTR {
        Reply(SET_BTS_ATTR_ACK, THE_RADIO);
      } else if ty == CHG_ADM_STATE {
        ChangeState();
      }
      ghost var replies := ByType(s, r).1;
      assert View() == ByType(s, r).0 && sent == sent0 + replies;
      assert msg[MDISC] == if replies == [] then r[MDISC] else FOM;
    }

    /** `oml_msg`, with the request in the buffer. */
    method OmlMsg()
      requires Valid() && RequestOk(msg[..]) && Attributed(msg[..])
      modifies this, msg, channelOp, channelAdm
      ensures var (t, replies) := HandleInPlace(old(View()), old(msg[..])); View() == t && sent == old(sent) + replies
      ensures old(msg[MDISC]) == FOM ==>
        var (t, replies) := Handle(old(View()), old(msg[..])); View() == t && sent == old(sent) + replies
    {
      ghost var r, s, sent0 := msg[..], View(), sent;
      InPlaceRefines(s, r);
      hide Handle, ByType;
      OnMessageType();
      ghost var t, replies, mdisc := View(), ByType(s, r).1, msg[MDISC];
      if msg[MDISC] == MANUF {
        sent := sent + [ToOml(INIT_RSL_LINK)];
        Report(THE_BASEBAND, basebandOp, AV_OK, basebandAdm);
        Report(THE_RADIO, radioOp, AV_OK, radioAdm);
        sent := sent + [ToRsl(ID_ACK)];
        sent := sent + [ToRsl(NULL_MESSAGE)];
      }
      assert sent == sent0 + (replies + ByDiscriminator(t, mdisc));
    }

    /** `softbts_msg` for the command in the buffer. */
    method LinkMsg()
      requires Valid()
      modifies this, msg
      ensures var (t, replies) := HandleLink(old(View()), old(msg[3])); View() == t && sent == old(sent) + replies
    {
      hide Short, StateReport, SwActRequest, ForChannels;
      ghost var sent0 := sent;
      var cmd := msg[3];
      if cmd == MSG_PING {
        sent := sent + [ToOml(PONG)];
      } else if cmd == MSG_ID_GET {
        sent := sent + [ToOml(ID_RESPONSE)];
        if !identified {
          ReportInitialState();
          identified := true;
          Announce(THE_SITE_MANAGER);
          swSite := SW_ACT_REQ;
          assert sent == sent0 + ([ToOml(ID_RESPONSE)] + InitialReports() + [ToOml(SwActRequest(THE_SITE_MANAGER))]);
        }
      }
    }

    /** `initial_state_report`. */
    method ReportInitialState()
      requires Valid()
      modifies this`sent, msg
      ensures sent == old(sent) + InitialReports()
    {
      hide Short, StateReport;
      ghost var sent0 := sent;
      Report(THE_SITE_MANAGER, DISABLED, AV_NOT_INSTALLED, LOCKED);
      Report(THE_BTS, DISABLED, AV_NOT_INSTALLED, LOCKED);
      Report(THE_BASEBAND, DISABLED, AV_NOT_INSTALLED, LOCKED);
      ghost var three := [ToOml(StateReport(THE_SITE_MANAGER, DISABLED, AV_NOT_INSTALLED, LOCKED)),
        ToOml(StateReport(THE_BTS, DISABLED, AV_NOT_INSTALLED, LOCKED)),
        ToOml(StateReport(THE_BASEBAND, DISABLED, AV_NOT_INSTALLED, LOCKED))];
      assert sent == sent0 + three;
      for channel := 0 to CHANNELS
        invariant sent == sent0 + (three + ForChannels(InitialChannel, channel))
      {
        Report(Channel(channel as byte), DISABLED, AV_NOT_INSTALLED, LOCKED);
        assert sent == sent0 + (three + ForChannels(InitialChannel, channel + 1));
      }
      Report(THE_RADIO, DISABLED, AV_NOT_INSTALLED, LOCKED);
      assert sent == sent0 + InitialReports();
    }
  }
}
