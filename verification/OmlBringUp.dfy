/** Runs of the base station against a controller that starts objects only after they were announced. */
module OmlBringUp {
  import opened Bytes
  import opened OmlMessages
  import opened OmlHandler

  /** What arrives: a command of the link protocol, or an O&M request. */
  datatype Input = Link(command: byte) | Request(r: seq<byte>)

  /** The object classes that packets announce with SW Activate Request, in order. */
  function Announced(ps: seq<Packet>): seq<byte> {
    if ps == [] then []
    else
      var p := ps[|ps| - 1];
      Announced(ps[..|ps| - 1]) +
      if p.ToOml? && |p.bytes| == 40 && p.bytes[2] == 0xff && p.bytes[MSG_TYPE] == SW_ACT_REQ
      then [p.bytes[OBJ_CLASS]] else []
  }

  /** The classes in the order in which they come up first. */
  function FirstSeen(cs: seq<byte>): seq<byte> {
    if cs == [] then []
    else
      var seen := FirstSeen(cs[..|cs| - 1]);
      if cs[|cs| - 1] in seen then seen else seen + [cs[|cs| - 1]]
  }

  const BRING_UP_ORDER: seq<byte> := [SITE_MANAGER, BTS, BASEB_TRANSC, RADIO_CARRIER, CHANNEL]

  /** The controller sends Activate SW and Opstart only for classes announced so far. */
  predicate Fair(sent: seq<Packet>, i: Input) {
    i.Request? ==>
      && RequestOk(i.r)
      && (i.r[MSG_TYPE] == ACTIVATE_SW || i.r[MSG_TYPE] == OPSTART ==> i.r[OBJ_CLASS] in Announced(sent))
  }

  function React(s: State, i: Input): (x: (State, seq<Packet>))
    requires StateOk(s) && (i.Request? ==> RequestOk(i.r))
    ensures StateOk(x.0)
  {
    match i
    case Link(command) => HandleLink(s, command)
    case Request(r) => HandleInPlace(s, r)
  }

  /** Inputs that a fair controller can send one after the other. */
  predicate FairRun(s: State, sent: seq<Packet>, inputs: seq<Input>)
    requires StateOk(s)
    decreases |inputs|
  {
    inputs == [] || (Fair(sent, inputs[0]) &&
      var (t, replies) := React(s, inputs[0]);
      FairRun(t, sent + replies, inputs[1..]))
  }

  /** State and packets after a run. */
  function After(s: State, sent: seq<Packet>, inputs: seq<Input>): (x: (State, seq<Packet>))
    requires StateOk(s) && FairRun(s, sent, inputs)
    ensures StateOk(x.0) && sent <= x.1
    decreases |inputs|
  {
    if inputs == [] then (s, sent)
    else
      var (t, replies) := React(s, inputs[0]);
      After(t, sent + replies, inputs[1..])
  }

  lemma {:induction false} AnnouncedSum(a: seq<Packet>, b: seq<Packet>)
    ensures Announced(a + b) == Announced(a) + Announced(b)
  {
    if b == [] {
      assert a + b == a;
    } else {
      var c := b[..|b| - 1];
      assert (a + b)[..|a + b| - 1] == a + c;
      AnnouncedSum(a, c);
    }
  }

  lemma AnnouncedOne(p: Packet)
    ensures Announced([p]) ==
      if p.ToOml? && |p.bytes| == 40 && p.bytes[2] == 0xff && p.bytes[MSG_TYPE] == SW_ACT_REQ
      then [p.bytes[OBJ_CLASS]] else []
  {
    assert [p][..0] == [];
  }

  /** No packet of `ps` has the length of an announcement. */
  ghost predicate Quiet(ps: seq<Packet>) {
    forall i {:trigger ps[i]} :: 0 <= i < |ps| ==> ps[i].ToRsl? || |ps[i].bytes| != 40
  }

  lemma {:induction false} QuietSilent(ps: seq<Packet>)
    requires Quiet(ps)
    ensures Announced(ps) == []
  {
    if ps != [] {
      QuietSilent(ps[..|ps| - 1]);
    }
  }

  lemma AnnouncesOne(a: seq<Packet>, o: Object)
    requires Quiet(a)
    ensures Announced(a + [ToOml(SwActRequest(o))]) == [o.class_]
  {
    QuietSilent(a);
    AnnouncedSum(a, [ToOml(SwActRequest(o))]);
    AnnouncedOne(ToOml(SwActRequest(o)));
  }

  function Channels(n: nat): seq<byte> {
    seq(n, _ => CHANNEL)
  }

  lemma {:induction false} AnnouncesChannels(n: nat)
    requires n <= CHANNELS
    ensures Announced(ForChannels(RequestedChannel, n)) == Channels(n)
  {
    if n > 0 {
      hide Announced, SwActRequest;
      AnnouncesChannels(n - 1);
      var p := ToOml(RequestedChannel((n - 1) as byte));
      AnnouncedSum(ForChannels(RequestedChannel, n - 1), [p]);
      AnnouncesOne([], Channel((n - 1) as byte));
      assert [] + [p] == [p];
      assert ForChannels(RequestedChannel, n) == ForChannels(RequestedChannel, n - 1) + [p];
      assert Channels(n) == Channels(n - 1) + [CHANNEL];
    }
  }

  lemma {:induction false} QuietReports(s: State, n: nat)
    requires StateOk(s) && n <= CHANNELS
    ensures Quiet(ChannelReports(s, n)) && |ChannelReports(s, n)| == n
  {
    if n > 0 {
      QuietReports(s, n - 1);
    }
  }

  lemma QuietInitial()
    ensures Quiet(InitialReports())
  {
    hide StateReport;
  }

  /** The classes that an input makes the station announce. */
  function NewClasses(s: State, i: Input): seq<byte>
    requires i.Request? ==> RequestOk(i.r)
  {
    match i
    case Link(command) => if command == MSG_ID_GET && !s.identified then [SITE_MANAGER] else []
    case Request(r) =>
      if r[MSG_TYPE] == ACTIVATE_SW && r[OBJ_CLASS] == BASEB_TRANSC then [RADIO_CARRIER]
      else if r[MSG_TYPE] == ACTIVATE_SW && r[OBJ_CLASS] == RADIO_CARRIER then Channels(CHANNELS)
      else if r[MSG_TYPE] == OPSTART && r[OBJ_CLASS] == SITE_MANAGER then [BTS]
      else if r[MSG_TYPE] == OPSTART && r[OBJ_CLASS] == BTS then [BASEB_TRANSC]
      else []
  }

  lemma ActivateAnnounces(s: State, class_: byte, ts: byte)
    requires class_ == CHANNEL ==> ts as int < CHANNELS
    ensures Announced(OnActivate(s, class_, ts).1) ==
      if class_ == BASEB_TRANSC then [RADIO_CARRIER] else if class_ == RADIO_CARRIER then Channels(CHANNELS) else []
  {
    hide Short, StateReport, SwActRequest, Announced;
    var ps := OnActivate(s, class_, ts).1;
    if class_ == BASEB_TRANSC {
      AnnouncesOne([ToOml(Short(ACTIVATE_SW_ACK, THE_BASEBAND))], THE_RADIO);
      assert ps == [ToOml(Short(ACTIVATE_SW_ACK, THE_BASEBAND))] + [ToOml(SwActRequest(THE_RADIO))];
    } else if class_ == RADIO_CARRIER {
      var ack := [ToOml(Short(ACTIVATE_SW_ACK, THE_RADIO))];
      QuietSilent(ack);
      AnnouncedSum(ack, ForChannels(RequestedChannel, CHANNELS));
      AnnouncesChannels(CHANNELS);
      assert [] + Channels(CHANNELS) == Channels(CHANNELS);
    } else {
      assert Quiet(ps);
      QuietSilent(ps);
    }
  }

  lemma OpstartAnnounces(s: State, class_: byte, ts: byte)
    requires StateOk(s) && (class_ == CHANNEL ==> ts as int < CHANNELS)
    ensures Announced(OnOpstart(s, class_, ts).1) ==
      if class_ == SITE_MANAGER then [BTS] else if class_ == BTS then [BASEB_TRANSC] else []
  {
    hide Short, StateReport, SwActRequest, Announced, ChannelReports;
    var (t, ps) := OnOpstart(s, class_, ts);
    if class_ == SITE_MANAGER {
      var two := [ToOml(Short(OPSTART_ACK, THE_SITE_MANAGER)), ToOml(Short(SW_ACTIVATED_REP, THE_SITE_MANAGER))];
      AnnouncesOne(two, THE_BTS);
      assert ps == two + [ToOml(SwActRequest(THE_BTS))];
    } else if class_ == BTS {
      var two := [ToOml(Short(OPSTART_ACK, THE_BTS)), ToOml(Short(SW_ACTIVATED_REP, THE_BTS))];
      AnnouncesOne(two, THE_BASEBAND);
      assert ps == two + [ToOml(SwActRequest(THE_BASEBAND))];
    } else {
      if class_ == CHANNEL { QuietReports(t, CHANNELS); }
      assert Quiet(ps);
      QuietSilent(ps);
    }
  }

  lemma LinkAnnounces(s: State, command: byte)
    ensures Announced(HandleLink(s, command).1) == NewClasses(s, Link(command))
  {
    hide StateReport, SwActRequest, Announced, InitialReports;
    var ps := HandleLink(s, command).1;
    if command == MSG_ID_GET && !s.identified {
      QuietInitial();
      AnnouncesOne([ToOml(ID_RESPONSE)] + InitialReports(), THE_SITE_MANAGER);
    } else {
      assert Quiet(ps);
      QuietSilent(ps);
    }
  }

  lemma QuietDiscriminator(s: State, mdisc: byte)
    ensures Quiet(ByDiscriminator(s, mdisc))
  {
    hide StateReport;
  }

  lemma ReactAnnounces(s: State, i: Input)
    requires StateOk(s) && (i.Request? ==> RequestOk(i.r))
    ensures Announced(React(s, i).1) == NewClasses(s, i)
  {
    hide OnActivate, OnOpstart, OnChangeState, Announced, Short, HandleLink, ByDiscriminator;
    match i
    case Link(command) => LinkAnnounces(s, command);
    case Request(r) =>
      var (t, replies) := ByType(s, r);
      var last := ByDiscriminator(t, if replies == [] then r[MDISC] else FOM);
      QuietDiscriminator(t, if replies == [] then r[MDISC] else FOM);
      QuietSilent(last);
      AnnouncedSum(replies, last);
      assert Announced(replies) + [] == Announced(replies);
      if r[MSG_TYPE] == ACTIVATE_SW {
        ActivateAnnounces(s, r[OBJ_CLASS], r[TS_NR]);
      } else if r[MSG_TYPE] == OPSTART {
        OpstartAnnounces(s, r[OBJ_CLASS], r[TS_NR]);
      } else {
        QuietOthers(s, r);
        QuietSilent(replies);
      }
  }

  lemma QuietOthers(s: State, r: seq<byte>)
    requires StateOk(s) && RequestOk(r) && r[MSG_TYPE] != ACTIVATE_SW && r[MSG_TYPE] != OPSTART
    ensures Quiet(ByType(s, r).1)
  {
    hide OnActivate, OnOpstart;
  }

  /** What every fair run keeps: objects come up in order, and an object that follows another was
      announced only after the other was enabled. */
  ghost predicate Invariant(s: State, classes: seq<byte>) {
    && FirstSeen(classes) <= BRING_UP_ORDER
    && (s.identified <==> classes != [])
    && (BTS in classes ==> s.managerOp == ENABLED)
    && (BASEB_TRANSC in classes ==> s.btsOp == ENABLED)
  }

  lemma {:induction false} SeenSame(cs: seq<byte>)
    ensures forall c :: c in FirstSeen(cs) <==> c in cs
    ensures FirstSeen(cs) == [] <==> cs == []
  {
    if cs != [] {
      SeenSame(cs[..|cs| - 1]);
      assert cs == cs[..|cs| - 1] + [cs[|cs| - 1]];
    }
  }

  lemma SeenMore(cs: seq<byte>, c: byte)
    ensures FirstSeen(cs + [c]) == if c in cs then FirstSeen(cs) else FirstSeen(cs) + [c]
  {
    assert (cs + [c])[..|cs + [c]| - 1] == cs;
    SeenSame(cs);
  }

  lemma {:induction false} SeenChannels(cs: seq<byte>, n: nat)
    requires n > 0
    ensures FirstSeen(cs + Channels(n)) == if CHANNEL in cs then FirstSeen(cs) else FirstSeen(cs) + [CHANNEL]
  {
    assert cs + Channels(n) == (cs + Channels(n - 1)) + [CHANNEL];
    SeenMore(cs + Channels(n - 1), CHANNEL);
    if n > 1 {
      SeenChannels(cs, n - 1);
      assert CHANNEL in Channels(n - 1) by { assert Channels(n - 1)[0] == CHANNEL; }
    } else {
      assert cs + Channels(0) == cs;
    }
  }

  /** A new class that directly follows one seen before keeps the order. */
  lemma OrderMore(seen: seq<byte>, k: nat)
    requires seen <= BRING_UP_ORDER && k < 5 && (k > 0 ==> BRING_UP_ORDER[k - 1] in seen)
    ensures BRING_UP_ORDER[k] !in seen ==> seen + [BRING_UP_ORDER[k]] <= BRING_UP_ORDER
  {
    assert |seen| <= 5 && seen == BRING_UP_ORDER[..|seen|];
    if k < |seen| {
      assert seen[k] == BRING_UP_ORDER[k];
    }
    if BRING_UP_ORDER[k] !in seen {
      if k > 0 {
        var j :| 0 <= j < |seen| && seen[j] == BRING_UP_ORDER[k - 1];
        assert seen[j] == BRING_UP_ORDER[j];
      }
    }
  }

  /** The part of the invariant about the state. */
  lemma StateKept(s: State, classes: seq<byte>, i: Input)
    requires StateOk(s) && (s.identified <==> classes != [])
    requires (BTS in classes ==> s.managerOp == ENABLED) && (BASEB_TRANSC in classes ==> s.btsOp == ENABLED)
    requires i.Request? ==>
      RequestOk(i.r) && (i.r[MSG_TYPE] == ACTIVATE_SW || i.r[MSG_TYPE] == OPSTART ==> i.r[OBJ_CLASS] in classes)
    ensures var t, all := React(s, i).0, classes + NewClasses(s, i);
      && (t.identified <==> all != [])
      && (BTS in all ==> t.managerOp == ENABLED) && (BASEB_TRANSC in all ==> t.btsOp == ENABLED)
  {
    hide Short, StateReport, SwActRequest, ForChannels, ChannelReports, InitialReports, StartedBatch, ByDiscriminator;
    hide Channels;
    NewBelow(s, i);
  }

  /** Which requests announce the BTS and the baseband transceiver. */
  lemma NewBelow(s: State, i: Input)
    requires i.Request? ==> RequestOk(i.r)
    ensures BTS in NewClasses(s, i) ==> i.Request? && i.r[MSG_TYPE] == OPSTART && i.r[OBJ_CLASS] == SITE_MANAGER
    ensures BASEB_TRANSC in NewClasses(s, i) ==> i.Request? && i.r[MSG_TYPE] == OPSTART && i.r[OBJ_CLASS] == BTS
    ensures NewClasses(s, i) != [] && i.Request? ==> i.r[MSG_TYPE] == ACTIVATE_SW || i.r[MSG_TYPE] == OPSTART
  {
    OnlyChannels(CHANNELS);
  }

  lemma {:induction false} OnlyChannels(n: nat)
    ensures |Channels(n)| == n && forall c :: c in Channels(n) ==> c == CHANNEL
  {
    if n > 0 { OnlyChannels(n - 1); }
  }

  lemma InvariantKept(s: State, classes: seq<byte>, i: Input)
    requires StateOk(s) && Invariant(s, classes)
    requires i.Request? ==>
      RequestOk(i.r) && (i.r[MSG_TYPE] == ACTIVATE_SW || i.r[MSG_TYPE] == OPSTART ==> i.r[OBJ_CLASS] in classes)
    ensures Invariant(React(s, i).0, classes + NewClasses(s, i))
  {
    hide React, FirstSeen;
    SeenSame(classes);
    StateKept(s, classes, i);
    var more := NewClasses(s, i);
    if more == [] {
      assert classes + more == classes;
    } else if |more| == 1 {
      SeenMore(classes, more[0]);
      var place :=
        if more[0] == SITE_MANAGER then 0 else if more[0] == BTS then 1 else if more[0] == BASEB_TRANSC then 2 else 3;
      OrderMore(FirstSeen(classes), place);
    } else {
      SeenChannels(classes, CHANNELS);
      OrderMore(FirstSeen(classes), 4);
    }
  }

  /** Packets that report an object as not installed. */
  function Initials(ps: seq<Packet>): nat {
    if ps == [] then 0
    else Initials(ps[..|ps| - 1]) + if IsInitial(ps[|ps| - 1]) then 1 else 0
  }

  predicate IsInitial(p: Packet) {
    p.ToOml? && |p.bytes| == 20 && p.bytes[MSG_TYPE] == STATECHG_EVENT_REP && p.bytes[17] == AV_NOT_INSTALLED
  }

  lemma {:induction false} InitialsSum(a: seq<Packet>, b: seq<Packet>)
    ensures Initials(a + b) == Initials(a) + Initials(b)
  {
    if b == [] {
      assert a + b == a;
    } else {
      assert (a + b)[..|a + b| - 1] == a + b[..|b| - 1];
      InitialsSum(a, b[..|b| - 1]);
    }
  }

  ghost predicate NoInitial(ps: seq<Packet>) {
    forall i {:trigger ps[i]} :: 0 <= i < |ps| ==> !IsInitial(ps[i])
  }

  ghost predicate OnlyInitial(ps: seq<Packet>) {
    forall i {:trigger ps[i]} :: 0 <= i < |ps| ==> IsInitial(ps[i])
  }

  lemma {:induction false} InitialsAre(ps: seq<Packet>)
    ensures NoInitial(ps) ==> Initials(ps) == 0
    ensures OnlyInitial(ps) ==> Initials(ps) == |ps|
  {
    if ps != [] {
      InitialsAre(ps[..|ps| - 1]);
    }
  }

  lemma ReportInitial(o: Object, op: byte, av: byte, adm: byte)
    ensures IsInitial(ToOml(StateReport(o, op, av, adm))) <==> av == AV_NOT_INSTALLED
  {
  }

  lemma {:induction false} ReportsInstalled(s: State, n: nat)
    requires StateOk(s) && n <= CHANNELS
    ensures NoInitial(ChannelReports(s, n))
  {
    if n > 0 {
      ReportsInstalled(s, n - 1);
      ReportInitial(Channel((n - 1) as byte), s.channelOp[n - 1], AV_OK, s.channelAdm[n - 1]);
    }
  }

  lemma InitialReportsInitial()
    ensures OnlyInitial(InitialReports()) && |InitialReports()| == 12
  {
    hide IsInitial, StateReport;
    ReportInitial(THE_SITE_MANAGER, DISABLED, AV_NOT_INSTALLED, LOCKED);
    ReportInitial(THE_BTS, DISABLED, AV_NOT_INSTALLED, LOCKED);
    ReportInitial(THE_BASEBAND, DISABLED, AV_NOT_INSTALLED, LOCKED);
    ReportInitial(THE_RADIO, DISABLED, AV_NOT_INSTALLED, LOCKED);
    forall i | 0 <= i < CHANNELS
      ensures IsInitial(ForChannels(InitialChannel, CHANNELS)[i])
    {
      ReportInitial(Channel(i as byte), DISABLED, AV_NOT_INSTALLED, LOCKED);
    }
  }

  lemma ActivateInstalled(s: State, class_: byte, ts: byte)
    ensures NoInitial(OnActivate(s, class_, ts).1)
  {
    hide StateReport;
    ReportInitial(THE_SITE_MANAGER, ENABLED, AV_OK, LOCKED);
    ReportInitial(THE_BTS, DISABLED, AV_DEPENDENCY, LOCKED);
    ReportInitial(Channel(ts), DISABLED, AV_DEPENDENCY, LOCKED);
  }

  lemma OpstartInstalled(s: State, class_: byte, ts: byte)
    requires StateOk(s) && (class_ == CHANNEL ==> ts as int < CHANNELS)
    ensures NoInitial(OnOpstart(s, class_, ts).1)
  {
    hide StateReport, ChannelReports;
    var t := OnOpstart(s, class_, ts).0;
    ReportInitial(THE_SITE_MANAGER, t.managerOp, AV_OK, t.managerAdm);
    ReportInitial(THE_BTS, t.btsOp, AV_OK, t.btsAdm);
    if class_ == CHANNEL { ReportsInstalled(t, CHANNELS); }
  }

  lemma DiscriminatorInstalled(s: State, mdisc: byte)
    ensures NoInitial(ByDiscriminator(s, mdisc))
  {
    hide StateReport;
    ReportInitial(THE_BASEBAND, s.basebandOp, AV_OK, s.basebandAdm);
    ReportInitial(THE_RADIO, s.radioOp, AV_OK, s.radioAdm);
  }

  lemma OthersInstalled(s: State, r: seq<byte>)
    requires StateOk(s) && RequestOk(r) && r[MSG_TYPE] != ACTIVATE_SW && r[MSG_TYPE] != OPSTART
    ensures NoInitial(ByType(s, r).1)
  {
    hide OnActivate, OnOpstart;
  }

  lemma ReactInitials(s: State, i: Input)
    requires StateOk(s) && (i.Request? ==> RequestOk(i.r))
    ensures Initials(React(s, i).1) == if React(s, i).0.identified && !s.identified then 12 else 0
    ensures s.identified ==> React(s, i).0.identified
  {
    hide Initials, IsInitial, Short, StateReport, SwActRequest, ByDiscriminator, InitialReports, StartedBatch;
    hide ForChannels;
    match i
    case Link(command) =>
      if command == MSG_ID_GET && !s.identified {
        InitialReportsInitial();
        var id, act := [ToOml(ID_RESPONSE)], [ToOml(SwActRequest(THE_SITE_MANAGER))];
        NotInitial();
        InitialsAre(id);
        InitialsAre(act);
        InitialsAre(InitialReports());
        InitialsSum(id, InitialReports());
        InitialsSum(id + InitialReports(), act);
      } else {
        NotInitial();
        InitialsAre(React(s, i).1);
      }
    case Request(r) =>
      var (t, replies) := ByType(s, r);
      var last := ByDiscriminator(t, if replies == [] then r[MDISC] else FOM);
      DiscriminatorInstalled(t, if replies == [] then r[MDISC] else FOM);
      if r[MSG_TYPE] == ACTIVATE_SW {
        ActivateInstalled(s, r[OBJ_CLASS], r[TS_NR]);
      } else if r[MSG_TYPE] == OPSTART {
        OpstartInstalled(s, r[OBJ_CLASS], r[TS_NR]);
      } else {
        OthersInstalled(s, r);
      }
      InitialsAre(replies);
      InitialsAre(last);
      InitialsSum(replies, last);
  }

  lemma NotInitial()
    ensures !IsInitial(ToOml(ID_RESPONSE)) && !IsInitial(ToOml(SwActRequest(THE_SITE_MANAGER))) &&
      !IsInitial(ToOml(PONG))
  {
  }

  lemma {:induction false} RunKeeps(s: State, sent: seq<Packet>, inputs: seq<Input>)
    requires StateOk(s) && FairRun(s, sent, inputs) && Invariant(s, Announced(sent))
    requires Initials(sent) == if s.identified then 12 else 0
    ensures var (t, all) := After(s, sent, inputs);
      Invariant(t, Announced(all)) && Initials(all) == if t.identified then 12 else 0
    decreases |inputs|
  {
    hide React, Invariant, Announced, Initials, NewClasses;
    if inputs != [] {
      var (t, replies) := React(s, inputs[0]);
      ReactAnnounces(s, inputs[0]);
      AnnouncedSum(sent, replies);
      InvariantKept(s, Announced(sent), inputs[0]);
      ReactInitials(s, inputs[0]);
      InitialsSum(sent, replies);
      RunKeeps(t, sent + replies, inputs[1..]);
    }
  }

  /** An Opstart of the last channel. */
  predicate StartsLastChannel(i: Input) {
    i.Request? && RequestOk(i.r) && i.r[MSG_TYPE] == OPSTART && i.r[OBJ_CLASS] == CHANNEL && i.r[TS_NR] == 7
  }

  lemma BatchReports(s: State, i: Input)
    requires StateOk(s) && StartsLastChannel(i)
    ensures var replies := React(s, i).1;
      && |replies| == 13
      && replies[2] == ToOml(StateReport(THE_SITE_MANAGER, s.managerOp, AV_OK, s.managerAdm))
      && replies[3] == ToOml(StateReport(THE_BTS, s.btsOp, AV_OK, s.btsAdm))
  {
    hide Short, StateReport, ChannelReports;
    var t := s.(channelOp := s.channelOp[7 := ENABLED]);
    QuietReports(t, CHANNELS);
  }

  lemma OrderDown(classes: seq<byte>)
    requires FirstSeen(classes) <= BRING_UP_ORDER && CHANNEL in classes
    ensures BTS in classes && BASEB_TRANSC in classes
  {
    hide FirstSeen;
    SeenSame(classes);
    var seen := FirstSeen(classes);
    var j :| 0 <= j < |seen| && seen[j] == CHANNEL;
    assert seen[j] == BRING_UP_ORDER[j];
    assert seen[1] == BRING_UP_ORDER[1] && seen[2] == BRING_UP_ORDER[2];
  }

  /** From the start, against a fair controller: the object classes are announced first in the
      bring-up order; the initial report is sent once, and with the first identity request; and the
      batch that follows the start of channel 7 reports site manager and BTS as enabled. */
  lemma BringUp(inputs: seq<Input>, next: Input)
    requires FairRun(INITIAL, [], inputs) && Fair(After(INITIAL, [], inputs).1, next)
    ensures var (s, sent) := After(INITIAL, [], inputs);
      && FirstSeen(Announced(sent)) <= BRING_UP_ORDER
      && Initials(sent) == (if s.identified then 12 else 0)
      && (s.identified <==> Announced(sent) != [])
      && (StartsLastChannel(next) ==>
            var replies := React(s, next).1;
            && |replies| == 13
            && replies[2] == ToOml(StateReport(THE_SITE_MANAGER, ENABLED, AV_OK, s.managerAdm))
            && replies[3] == ToOml(StateReport(THE_BTS, ENABLED, AV_OK, s.btsAdm)))
  {
    hide React, Announced, Initials, FirstSeen, StateReport;
    StartInvariant();
    RunKeeps(INITIAL, [], inputs);
    var (s, sent) := After(INITIAL, [], inputs);
    if StartsLastChannel(next) {
      BatchReports(s, next);
      OrderDown(Announced(sent));
    }
  }

  lemma StartInvariant()
    ensures StateOk(INITIAL) && Invariant(INITIAL, Announced([])) && Initials([]) == 0
  {
  }
}
