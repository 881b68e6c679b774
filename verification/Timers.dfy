/** Timers on an intrusive list, with callbacks that may change the list while it is walked. */
module Timers {
  import opened Sequences
  import opened LinuxList

  /** Times are in microseconds. */
  datatype Timer = Timer(timeout: int, active: bool, handled: bool, inList: bool)

  /** What a callback can do to the timers. */
  datatype Act = AddIt(t: Node) | DeleteIt(t: Node) | ScheduleIt(t: Node, now: int, delay: int)

  /** What happens to timers in a round: one is fired, or a callback does something. */
  datatype Event = Fired(t: Node) | Did(act: Act)

  datatype Wait = Forever | For(time: int)

  const HEAD: Node := 0

  type Timers = map<Node, Timer>

  /** The flags agree with the list. */
  ghost predicate FlagsOk(timers: Timers, listed: seq<Node>) {
    && (forall t {:trigger timers[t]} :: t in timers ==>
      t > 0 && (timers[t].inList <==> t in listed) && (timers[t].active ==> timers[t].inList))
    && (forall t {:trigger t in listed} :: t in listed ==> t in timers)
  }

  /** Between rounds exactly the active timers are on the list. */
  ghost predicate Settled(timers: Timers) {
    forall t {:trigger timers[t]} :: t in timers ==> (timers[t].active <==> timers[t].inList)
  }

  /** A timer that is still to be fired in this round. */
  predicate DueNow(timers: Timers, t: Node, now: int) {
    t in timers && !timers[t].handled && timers[t].timeout <= now
  }

  /** The timers that are not handled yet. */
  ghost function Unhandled(timers: Timers): set<Node> {
    set t | t in timers && !timers[t].handled
  }

  /** Whether timer `t` is active after an event, and when it is due. */
  predicate ActiveStep(a: bool, e: Event, t: Node) {
    match e
    case Fired(x) => a && x != t
    case Did(act) => if act.t == t then !act.DeleteIt? else a
  }

  function TimeoutStep(d: int, e: Event, t: Node): int {
    if e.Did? && e.act.ScheduleIt? && e.act.t == t then e.act.now + e.act.delay else d
  }

  predicate ActiveAfter(a: bool, log: seq<Event>, t: Node) {
    if log == [] then a else ActiveStep(ActiveAfter(a, log[..|log| - 1], t), log[|log| - 1], t)
  }

  function TimeoutAfter(d: int, log: seq<Event>, t: Node): int {
    if log == [] then d else TimeoutStep(TimeoutAfter(d, log[..|log| - 1], t), log[|log| - 1], t)
  }

  function Steps(acts: seq<Act>): seq<Event> {
    seq(|acts|, i requires 0 <= i < |acts| => Did(acts[i]))
  }

  /** The events of a round in which the timers `fired` are fired; the first of their callbacks is
      number `first`. */
  function LogOf(oracle: nat -> seq<Act>, first: nat, fired: seq<Node>): seq<Event> {
    if fired == [] then []
    else
      var n := |fired| - 1;
      LogOf(oracle, first, fired[..n]) + ([Fired(fired[n])] + Steps(oracle(first + n)))
  }

  /** From `t0` to `t1` every timer went through the events `log`. */
  ghost predicate Follows(t0: Timers, t1: Timers, log: seq<Event>) {
    && t1.Keys == t0.Keys
    && forall t {:trigger t1[t]} :: t in t1 ==>
      t1[t].active == ActiveAfter(t0[t].active, log, t) && t1[t].timeout == TimeoutAfter(t0[t].timeout, log, t)
  }

  /** Each fired timer was due at `now` when it was fired, and if the flags and the list agreed at first,
      it was active. */
  ghost predicate FiredInTime(t0: Timers, oracle: nat -> seq<Act>, first: nat, fired: seq<Node>, now: int) {
    forall i {:trigger fired[i]} :: 0 <= i < |fired| ==>
      && fired[i] in t0
      && var log := LogOf(oracle, first, fired[..i]);
      && TimeoutAfter(t0[fired[i]].timeout, log, fired[i]) <= now
      && (Settled(t0) ==> ActiveAfter(t0[fired[i]].active, log, fired[i]))
  }

  /** What is listed and not handled is active. */
  ghost predicate LiveListed(timers: Timers, listed: seq<Node>) {
    forall t {:trigger t in listed} :: t in listed && t in timers && !timers[t].handled ==> timers[t].active
  }

  /** How far a round is that began with the timers `t0`. */
  ghost predicate Progress(t0: Timers, timers: Timers, listed: seq<Node>, oracle: nat -> seq<Act>, first: nat,
                           fired: seq<Node>, now: int) {
    && Follows(t0, timers, LogOf(oracle, first, fired)) && FiredInTime(t0, oracle, first, fired, now)
    && (Settled(t0) ==> LiveListed(timers, listed)) && HandledAre(t0, timers, fired)
  }

  ghost predicate HandledAre(t0: Timers, timers: Timers, fired: seq<Node>) {
    timers.Keys == t0.Keys &&
    forall t {:trigger timers[t]} :: t in timers ==> (timers[t].handled <==> t in fired || t0[t].handled)
  }

  /** No step of the callbacks from number `k` up to number `n` names timer `t`. */
  ghost predicate Untouched(oracle: nat -> seq<Act>, k: nat, n: nat, t: Node) {
    forall c, i {:trigger oracle(c)[i]} :: k <= c < n && 0 <= i < |oracle(c)| ==> oracle(c)[i].t != t
  }

  /** No such step adds or schedules it. */
  ghost predicate NotRevived(oracle: nat -> seq<Act>, k: nat, n: nat, t: Node) {
    forall c, i {:trigger oracle(c)[i]} :: k <= c < n && 0 <= i < |oracle(c)| ==>
      oracle(c)[i].t != t || oracle(c)[i].DeleteIt?
  }

  class TimerList {
    const links: Links
    /** What the callbacks do, call by call. */
    const oracle: nat -> seq<Act>
    var timers: Timers
    var calls: nat
    var nearest: int
    ghost var listed: seq<Node>
    /** The timers fired in this round, in order. */
    ghost var fired: seq<Node>
    /** The timers that were deleted or rescheduled in this round before they were fired. */
    ghost var disturbed: set<Node>

    ghost predicate Valid()
      reads this, links
    {
      && links.IsList(HEAD, listed) && FlagsOk(timers, listed)
      && forall k, i {:trigger oracle(k)[i]} :: 0 <= i < |oracle(k)| ==> oracle(k)[i].t in timers
    }

    /** All timers `ids` are idle at first. */
    constructor (ids: set<Node>, oracle: nat -> seq<Act>)
      requires forall t :: t in ids ==> t > 0
      requires forall k, i {:trigger oracle(k)[i]} :: 0 <= i < |oracle(k)| ==> oracle(k)[i].t in ids
      ensures Valid() && Settled(timers) && timers.Keys == ids && listed == [] && fresh(links)
    {
      var l := new Links();
      links := l;
      this.oracle := oracle;
      timers := map t | t in ids :: Timer(0, false, false, false);
      calls, nearest := 0, 0;
      listed, fired, disturbed := [], [], {};
      new;
      l.InitHead(HEAD);
    }

    /** `add_timer`. */
    method AddTimer(t: Node)
      requires Valid() && t in timers
      modifies this`timers, this`listed, links
      ensures Valid() && listed == if t in old(listed) then old(listed) else [t] + old(listed)
      ensures timers == old(timers)[t := old(timers)[t].(active := true, inList := true)]
    {
      timers := timers[t := timers[t].(active := true)];
      RingFirst(links.next, links.prev, HEAD, listed);
      var e := links.next[HEAD];
      ghost var i := 0;
      while e != HEAD
        invariant i <= |listed| && e == EntryAt(HEAD, listed, i) && t !in listed[..i]
        modifies {}
        decreases |listed| - i
      {
        if e == t {
          assert listed[i] in listed;
          return;
        }
        RingStep(links.next, links.prev, HEAD, listed, i);
        assert listed[..i + 1] == listed[..i] + [listed[i]];
        e := links.next[e];
        i := i + 1;
      }
      AtHead(HEAD, listed, i);
      assert listed[..i] == listed;
      timers := timers[t := timers[t].(inList := true)];
      links.Add(t, HEAD, listed);
      listed := [t] + listed;
    }

    /** `schedule_timer`, with the time `now` that it reads. */
    method ScheduleTimer(t: Node, now: int, delay: int)
      requires Valid() && t in timers
      modifies this`timers, this`listed, links
      ensures Valid() && listed == if t in old(listed) then old(listed) else [t] + old(listed)
      ensures timers == old(timers)[t := old(timers)[t].(timeout := now + delay, active := true, inList := true)]
    {
      timers := timers[t := timers[t].(timeout := now + delay)];
      AddTimer(t);
    }

    /** `del_timer`. */
    method DelTimer(t: Node)
      requires Valid() && t in timers
      modifies this`timers, this`listed, links
      ensures Valid()
      ensures t in old(listed) ==> listed == Without(old(listed), t) && t !in listed
      ensures t !in old(listed) ==> listed == old(listed)
      ensures timers ==
        if t in old(listed) then old(timers)[t := old(timers)[t].(active := false, inList := false)] else old(timers)
      ensures t in old(listed) ==> t in links.next && links.next[t] == POISON1
      ensures forall x :: x in old(listed) && x != t ==> x in listed
    {
      if timers[t].inList {
        WithoutMember(listed, t);
        timers := timers[t := timers[t].(active := false, inList := false)];
        links.Del(t, HEAD, listed);
        listed := Without(listed, t);
      }
    }

    /** One step of a callback. */
    method Perform(act: Act)
      requires Valid() && act.t in timers
      modifies this`timers, this`listed, this`disturbed, links
      ensures Valid() && timers.Keys == old(timers.Keys) && old(disturbed) <= disturbed
      ensures forall t {:trigger timers[t]} :: t in timers ==> timers[t].handled == old(timers)[t].handled
      ensures forall t {:trigger t in listed} :: t in old(listed) && t !in fired && t !in disturbed ==>
        t in listed && timers[t].timeout == old(timers)[t].timeout
      ensures forall t :: t in disturbed - old(disturbed) ==> t !in fired && t == act.t && !act.AddIt?
      ensures Follows(old(timers), timers, [Did(act)])
      ensures LiveListed(old(timers), old(listed)) ==> LiveListed(timers, listed)
    {
      OneEvent(Did(act));
      if act.t !in fired && !act.AddIt? {
        disturbed := disturbed + {act.t};
      }
      match act {
        case AddIt(t) => AddTimer(t);
        case DeleteIt(t) => DelTimer(t);
        case ScheduleIt(t, now, delay) => ScheduleTimer(t, now, delay);
      }
    }

    /** A callback. */
    method Callback()
      requires Valid()
      modifies this`timers, this`listed, this`disturbed, this`calls, links
      ensures Valid() && timers.Keys == old(timers.Keys) && old(disturbed) <= disturbed && calls == old(calls) + 1
      ensures forall t {:trigger timers[t]} :: t in timers ==> timers[t].handled == old(timers)[t].handled
      ensures forall t {:trigger t in listed} :: t in old(listed) && t !in fired && t !in disturbed ==>
        t in listed && timers[t].timeout == old(timers)[t].timeout
      ensures fired == old(fired)
      ensures forall t :: t in disturbed - old(disturbed) ==> t !in fired && Culprit(t, old(calls))
      ensures Follows(old(timers), timers, Steps(oracle(old(calls))))
      ensures LiveListed(old(timers), old(listed)) ==> LiveListed(timers, listed)
    {
      hide Follows, LiveListed;
      NoEvents(timers);
      var acts := oracle(calls);
      for i := 0 to |acts|
        invariant Valid() && calls == old(calls) && fired == old(fired) && timers.Keys == old(timers.Keys) &&
          old(disturbed) <= disturbed
        invariant forall t {:trigger timers[t]} :: t in timers ==> timers[t].handled == old(timers)[t].handled
        invariant forall t {:trigger t in listed} :: t in old(listed) && t !in fired && t !in disturbed ==>
          t in listed && timers[t].timeout == old(timers)[t].timeout
        invariant forall t :: t in disturbed - old(disturbed) ==> t !in fired && Named(acts, i, t)
        invariant Follows(old(timers), timers, Steps(acts[..i]))
        invariant LiveListed(old(timers), old(listed)) ==> LiveListed(timers, listed)
      {
        assert oracle(calls)[i] == acts[i] && oracle(calls)[i].t in timers;
        hide Steps, FlagsOk;
        ghost var before := timers;
        Perform(acts[i]);
        NamedMore(acts, i);
        FollowsMore(old(timers), before, timers, Steps(acts[..i]), [Did(acts[i])]);
        StepsMore(acts, i);
      }
      assert acts[..|acts|] == acts;
      calls := calls + 1;
    }

    /** The first loop of `update_timers`. */
    method ClearHandled()
      requires Valid()
      modifies this`timers
      ensures Valid() && timers.Keys == old(timers.Keys)
      ensures forall t {:trigger timers[t]} :: t in timers ==>
        timers[t] == if t in listed then old(timers)[t].(handled := false) else old(timers)[t]
    {
      RingFirst(links.next, links.prev, HEAD, listed);
      var e := links.next[HEAD];
      ghost var i := 0;
      while e != HEAD
        invariant Valid() && i <= |listed| && e == EntryAt(HEAD, listed, i) && timers.Keys == old(timers.Keys)
        invariant forall t {:trigger timers[t]} :: t in timers ==>
          timers[t] == if t in listed[..i] then old(timers)[t].(handled := false) else old(timers)[t]
        decreases |listed| - i
        modifies this`timers
      {
        assert listed[i] in listed;
        RingStep(links.next, links.prev, HEAD, listed, i);
        assert listed[..i + 1] == listed[..i] + [listed[i]];
        timers := timers[e := timers[e].(handled := false)];
        e := links.next[e];
        i := i + 1;
      }
      AtHead(HEAD, listed, i);
      assert listed[..i] == listed;
    }

    /** The walk of `update_timers` up to the first timer that is due, or to the end. */
    method FindDue(now: int) returns (t: Node)
      requires Valid()
      ensures if t == HEAD then forall x :: x in listed ==> !DueNow(timers, x, now)
        else t in listed && DueNow(timers, t, now)
    {
      RingFirst(links.next, links.prev, HEAD, listed);
      t := links.next[HEAD];
      ghost var i := 0;
      while t != HEAD
        invariant i <= |listed| && t == EntryAt(HEAD, listed, i) && forall x :: x in listed[..i] ==>
          !DueNow(timers, x, now)
        decreases |listed| - i
      {
        assert listed[i] in listed;
        if !timers[t].handled && timers[t].timeout <= now { return; }
        RingStep(links.next, links.prev, HEAD, listed, i);
        assert listed[..i + 1] == listed[..i] + [listed[i]];
        t := links.next[t];
        i := i + 1;
      }
      AtHead(HEAD, listed, i);
      assert listed[..i] == listed;
    }

    /** One round of the loop below. */
    method SweepStep(pos: Node, ghost t0: Timers, ghost all: seq<Node>, ghost i: nat)
      requires Valid() && Swept(t0, all, i, timers, listed) && i < |all| && pos == all[i]
      modifies this`timers, this`listed, links
      ensures Valid() && Swept(t0, all, i + 1, timers, listed)
    {
      hide Kept;
      ghost var before := listed;
      SweepHere(t0, all, i, timers, listed);
      timers := timers[pos := timers[pos].(handled := false)];
      if !timers[pos].active {
        DelTimer(pos);
      }
      SweepOne(t0, all, i, before, listed, timers);
    }

    /** The last loop of `update_timers`: timers that are not active leave the list. */
    method Sweep()
      requires Valid()
      modifies this`timers, this`listed, links
      ensures Valid() && Settled(timers) && timers.Keys == old(timers.Keys)
      ensures forall t {:trigger t in listed} :: t in listed <==> t in old(listed) && old(timers)[t].active
      ensures forall t {:trigger timers[t]} :: t in timers ==>
        timers[t].timeout == old(timers)[t].timeout && timers[t].active == old(timers)[t].active
        && timers[t].handled == (t !in old(listed) && old(timers)[t].handled)
    {
      hide Swept, FlagsOk, Settled, Kept;
      ghost var all, i := listed, 0;
      SweepNext(links.next, links.prev, timers, all, 0, timers, listed);
      RingFirst(links.next, links.prev, HEAD, listed);
      var pos := links.next[HEAD];
      var tmp := links.next[pos];
      while pos != HEAD
        invariant Valid() && i <= |all| && pos == EntryAt(HEAD, all, i) &&
          (i < |all| ==> tmp == EntryAt(HEAD, all, i + 1))
        invariant Swept(old(timers), all, i, timers, listed)
        decreases |all| - i
      {
        SweepStep(pos, old(timers), all, i);
        pos := tmp;
        i := i + 1;
        SweepNext(links.next, links.prev, old(timers), all, i, timers, listed);
        tmp := links.next[tmp];
      }
      AtHead(HEAD, all, i);
      SweepEnd(old(timers), all, timers, listed);
    }

    /** Fires a timer that is due. */
    method Fire(timer: Node, ghost start: seq<Node>, ghost t0: Timers, ghost now: int)
      requires Valid() && timer in listed && DueNow(timers, timer, now) && RoundOk() &&
        Waiting(start, t0, now, timers, listed, fired, disturbed)
      requires calls >= |fired| && Progress(t0, timers, listed, oracle, calls - |fired|, fired, now)
      modifies this, links
      ensures Valid() && timers.Keys == old(timers.Keys) && RoundOk() &&
        Waiting(start, t0, now, timers, listed, fired, disturbed)
      ensures fired == old(fired) + [timer] && calls == old(calls) + 1 && |Unhandled(timers)| < |old(Unhandled(timers))|
      ensures forall t :: t in disturbed - old(disturbed) ==> Culprit(t, old(calls))
      ensures Progress(t0, timers, listed, oracle, calls - |fired|, fired, now)
    {
      hide Follows, Progress, LiveListed, Settled, Steps, Waiting, Ring;
      ghost var before, was, d := timers, listed, disturbed;
      timers := timers[timer := timers[timer].(handled := true, active := false)];
      fired := fired + [timer];
      AppendDistinct(old(fired), timer);
      ghost var rung := timers;
      Callback();
      ProgressStep(t0, before, was, rung, timers, listed, oracle, old(calls) - |old(fired)|, old(fired), timer, now);
      FewerLeft(before, timer, timers);
      WaitingStep(start, t0, now, before, was, d, timer, timers, listed, fired, disturbed);
    }

    /** The second loop of `update_timers`, from `restart` on. */
    method FireDue(now: int, ghost start: seq<Node>, ghost t0: Timers) returns (work: bool)
      requires Valid() && fired == [] && disturbed == {} && timers == t0
      requires Waiting(start, t0, now, timers, listed, fired, disturbed)
      requires Progress(t0, timers, listed, oracle, calls, fired, now)
      modifies this, links
      ensures Valid() && timers.Keys == old(timers.Keys) && (work <==> fired != []) && Distinct(fired)
      ensures calls == old(calls) + |fired| && Progress(t0, timers, listed, oracle, old(calls), fired, now)
      ensures forall t :: t in disturbed ==> exists k {:trigger Culprit(t, k)} ::
        old(calls) <= k < calls && Culprit(t, k)
      ensures forall x :: x in listed ==> !DueNow(timers, x, now)
      ensures Waiting(start, t0, now, timers, listed, fired, disturbed)
    {
      hide FlagsOk, Progress, Waiting, Settled, Follows, Ring;
      work := false;
      var timer := FindDue(now);
      while timer != HEAD
        invariant Valid() && timers.Keys == old(timers.Keys) && (work <==> fired != []) && RoundOk()
        invariant calls == old(calls) + |fired| && Progress(t0, timers, listed, oracle, old(calls), fired, now)
        invariant Waiting(start, t0, now, timers, listed, fired, disturbed)
        invariant forall t :: t in disturbed ==>
          exists k {:trigger Culprit(t, k)} :: old(calls) <= k < calls && Culprit(t, k)
        invariant if timer == HEAD then forall x :: x in listed ==> !DueNow(timers, x, now)
          else timer in listed && DueNow(timers, timer, now)
        decreases |Unhandled(timers)|
      {
        ghost var k := calls;
        Fire(timer, start, t0, now);
        forall t | t in disturbed
          ensures exists k {:trigger Culprit(t, k)} :: old(calls) <= k < calls && Culprit(t, k)
        {
          assert Culprit(t, k) || exists k {:trigger Culprit(t, k)} :: old(calls) <= k < calls - 1 && Culprit(t, k);
        }
        work := true;
        timer := FindDue(now);
      }
    }

    /** `update_timers`, at time `now`. */
    method UpdateTimers(now: int) returns (work: bool)
      requires Valid()
      modifies this, links
      ensures Valid() && Settled(timers) && timers.Keys == old(timers.Keys)
      ensures Distinct(fired) && FiredInTime(old(timers), oracle, old(calls), fired, now)
      ensures (work <==> fired != []) && calls == old(calls) + |fired|
      ensures Follows(old(timers), timers, LogOf(oracle, old(calls), fired))
      ensures forall j {:trigger fired[j]} :: 0 <= j < |fired| && fired[j] in timers ==>
        (NotRevived(oracle, old(calls) + j, calls, fired[j]) ==> fired[j] !in listed && !timers[fired[j]].active)
      ensures forall t {:trigger timers[t]} :: t in timers && t !in fired ==>
        (Untouched(oracle, old(calls), calls, t) ==>
         && timers[t].active == old(timers)[t].active && timers[t].timeout == old(timers)[t].timeout
         && (t in listed <==> old(timers)[t].active))
      ensures forall t {:trigger t in listed} :: t in listed && t in timers && timers[t].timeout <= now ==>
        t in fired || (t !in old(listed) && old(timers)[t].handled)
      ensures forall t :: t in old(listed) && t in old(timers) && old(timers)[t].timeout <= now ==>
        t in fired || t in disturbed
      ensures forall t :: t in disturbed ==> exists k {:trigger Culprit(t, k)} ::
        old(calls) <= k < calls && Culprit(t, k)
    {
      hide Progress, Waiting, Settled, Follows, Ring, LogOf, FiredInTime, Untouched, NotRevived, TimerList.Culprit;
      fired, disturbed := [], {};
      ClearHandled();
      ghost var z, start, t0, first := old(timers), listed, timers, calls;
      WaitingStart(start, t0, now);
      ProgressStart(t0, listed, oracle, first, now);
      work := FireDue(now, start, t0);
      WaitingDone(start, t0, now, timers, listed, fired, disturbed);
      ghost var t1, was := timers, listed;
      Sweep();
      RoundDone(z, start, t0, t1, was, timers, listed, oracle, first, fired, now);
      RoundMeans(z, timers, listed, oracle, first, fired);
    }

    /** Rounds at the times `times`, with callbacks that leave the timers alone: every timer that is
        active at first is fired in the first round that reaches its time, and in no other. */
    method Rounds(times: seq<int>) returns (ghost rounds: seq<seq<Node>>)
      requires Valid() && Settled(timers) && forall k :: oracle(k) == []
      modifies this, links
      ensures Valid() && Settled(timers) && timers.Keys == old(timers.Keys) && |rounds| == |times|
      ensures forall i :: 0 <= i < |times| ==> Distinct(rounds[i])
      ensures forall i, t {:trigger t in rounds[i]} :: 0 <= i < |times| ==>
        (t in rounds[i] <==> Rings(old(timers), times, i, t))
    {
      hide Ring, LogOf, FiredInTime, Untouched, NotRevived, Follows, TimerList.Culprit;
      rounds := [];
      ghost var z := timers;
      for n := 0 to |times|
        invariant Valid() && Settled(timers) && timers.Keys == z.Keys && |rounds| == n
        invariant forall i :: 0 <= i < n ==> Distinct(rounds[i])
        invariant forall i, t {:trigger t in rounds[i]} :: 0 <= i < n ==> (t in rounds[i] <==> Rings(z, times, i, t))
        invariant Remaining(z, timers, times, n)
      {
        ghost var before, was, first := timers, listed, calls;
        var _ := UpdateTimers(times[n]);
        forall t | t in disturbed
          ensures false
        {
          assert exists k {:trigger Culprit(t, k)} :: first <= k < calls && Culprit(t, k);
          QuietOracle();
        }
        ListedActive(before, was);
        QuietRound(z, before, was, timers, times, n, oracle, first, fired);
        rounds := rounds + [fired];
      }
    }

    lemma QuietOracle()
      requires forall k :: oracle(k) == []
      ensures forall t, k :: !Culprit(t, k)
    {
    }

    /** `prepare_timers`: notes the earliest timeout on the list. */
    method Prepare()
      requires Valid()
      modifies this`nearest
      ensures listed == [] ==> nearest == 0
      ensures listed != [] ==> exists t :: t in listed && timers[t].timeout == nearest
      ensures forall t :: t in listed ==> nearest <= timers[t].timeout
    {
      RingFirst(links.next, links.prev, HEAD, listed);
      var e, best := links.next[HEAD], HEAD;
      ghost var i := 0;
      while e != HEAD
        invariant i <= |listed| && e == EntryAt(HEAD, listed, i)
        invariant best == HEAD <==> i == 0
        invariant best != HEAD ==> best in timers && best in listed && forall x :: x in listed[..i] && x in timers ==>
          timers[best].timeout <= timers[x].timeout
        decreases |listed| - i
      {
        assert listed[i] in listed && e in timers && timers[e] == timers[e];
        if best == HEAD || timers[e].timeout <= timers[best].timeout {
          best := e;
        }
        RingStep(links.next, links.prev, HEAD, listed, i);
        assert listed[..i + 1] == listed[..i] + [listed[i]];
        e := links.next[e];
        i := i + 1;
      }
      AtHead(HEAD, listed, i);
      assert listed[..i] == listed;
      nearest := if best != HEAD then timers[best].timeout else 0;
    }

    /** `nearest_timer`: how long to wait at time `now`, if there is anything to wait for. */
    method NearestTimer(now: int) returns (wait: Wait)
      requires Valid()
      ensures nearest == 0 <==> wait == Forever
      ensures wait.For? ==> wait.time == (if nearest < now then 0 else nearest - now)
    {
      if nearest == 0 { return Forever; }
      if nearest < now {
        wait := For(0);
      } else {
        wait := For(nearest - now);
      }
    }

    /** Waiting as long as the prepared timers allow never misses one: none falls due before the
        wait is over, and a timer that is overdue is not waited for. */
    method PrepareToWait(now: int) returns (wait: Wait)
      requires Valid()
      modifies this`nearest
      ensures listed == [] ==> wait == Forever
      ensures wait.For? ==> forall t :: t in listed ==> timers[t].timeout >= now + wait.time || wait.time == 0
      ensures wait == Forever ==> listed == [] || exists t :: t in listed && timers[t].timeout == 0
    {
      Prepare();
      wait := NearestTimer(now);
    }

    /** No timer is fired twice. */
    ghost predicate RoundOk()
      reads this
    {
      && Distinct(fired)
      && (forall t {:trigger t in fired} :: t in fired ==> t in timers && timers[t].handled)
    }

    /** Callback number `k` deletes or reschedules timer `t`. */
    ghost predicate Culprit(t: Node, k: nat) {
      Named(oracle(k), |oracle(k)|, t)
    }
  }

  lemma OneEvent(e: Event)
    ensures forall a, t :: ActiveAfter(a, [e], t) == ActiveStep(a, e, t)
    ensures forall d, t :: TimeoutAfter(d, [e], t) == TimeoutStep(d, e, t)
  {
    assert [e][..0] == [];
  }

  lemma StepsMore(acts: seq<Act>, i: nat)
    requires i < |acts|
    ensures Steps(acts[..i + 1]) == Steps(acts[..i]) + [Did(acts[i])]
  {
  }

  lemma NoEvents(timers: Timers)
    ensures Follows(timers, timers, []) && Steps([]) == []
  {
  }

  lemma {:induction false} AfterMore(a: bool, d: int, log: seq<Event>, more: seq<Event>, t: Node)
    ensures ActiveAfter(a, log + more, t) == ActiveAfter(ActiveAfter(a, log, t), more, t)
    ensures TimeoutAfter(d, log + more, t) == TimeoutAfter(TimeoutAfter(d, log, t), more, t)
  {
    hide ActiveStep, TimeoutStep;
    if more == [] {
      assert log + more == log;
    } else {
      var n := |more| - 1;
      AfterMore(a, d, log, more[..n], t);
      assert (log + more)[..|log| + n] == log + more[..n] && (log + more)[|log| + n] == more[n];
    }
  }

  lemma FollowsMore(t0: Timers, t1: Timers, t2: Timers, log: seq<Event>, more: seq<Event>)
    requires Follows(t0, t1, log) && Follows(t1, t2, more)
    ensures Follows(t0, t2, log + more)
  {
    hide ActiveAfter, TimeoutAfter;
    forall t {:trigger t2[t]} | t in t2
      ensures t2[t].active == ActiveAfter(t0[t].active, log + more, t)
      ensures t2[t].timeout == TimeoutAfter(t0[t].timeout, log + more, t)
    {
      AfterMore(t0[t].active, t0[t].timeout, log, more, t);
      assert t1[t] == t1[t];
    }
  }

  lemma RungIs(before: Timers, rung: Timers, timer: Node, listed: seq<Node>)
    requires timer in before && rung == before[timer := before[timer].(handled := true, active := false)]
    ensures Follows(before, rung, [Fired(timer)])
    ensures LiveListed(before, listed) ==> LiveListed(rung, listed)
  {
    OneEvent(Fired(timer));
  }

  lemma LogMore(oracle: nat -> seq<Act>, first: nat, fired: seq<Node>, timer: Node)
    ensures LogOf(oracle, first, fired + [timer]) ==
      LogOf(oracle, first, fired) + ([Fired(timer)] + Steps(oracle(first + |fired|)))
  {
    assert (fired + [timer])[..|fired|] == fired;
  }

  lemma ProgressStart(timers: Timers, listed: seq<Node>, oracle: nat -> seq<Act>, first: nat, now: int)
    requires FlagsOk(timers, listed)
    ensures Progress(timers, timers, listed, oracle, first, [], now)
  {
  }

  lemma ProgressHere(t0: Timers, timers: Timers, listed: seq<Node>, oracle: nat -> seq<Act>, first: nat,
                     fired: seq<Node>, timer: Node, now: int)
    requires Progress(t0, timers, listed, oracle, first, fired, now) && timer in listed && DueNow(timers, timer, now)
    ensures timers.Keys == t0.Keys && (Settled(t0) ==> timers[timer].active && LiveListed(timers, listed))
  {
  }

  /** A fired timer and its callback: one more step of the round. */
  lemma ProgressStep(t0: Timers, before: Timers, was: seq<Node>, rung: Timers, timers: Timers, listed: seq<Node>,
                     oracle: nat -> seq<Act>, first: nat, fired: seq<Node>, timer: Node, now: int)
    requires Progress(t0, before, was, oracle, first, fired, now) && timer in was && DueNow(before, timer, now)
    requires rung == before[timer := before[timer].(handled := true, active := false)]
    requires Follows(rung, timers, Steps(oracle(first + |fired|)))
    requires LiveListed(rung, was) ==> LiveListed(timers, listed)
    requires forall t {:trigger timers[t]} :: t in timers ==> timers[t].handled == rung[t].handled
    ensures Progress(t0, timers, listed, oracle, first, fired + [timer], now)
  {
    hide Follows, FiredInTime, LogOf, LiveListed, Settled, Steps, HandledAre;
    ProgressHere(t0, before, was, oracle, first, fired, timer, now);
    RungIs(before, rung, timer, was);
    ProgressLog(t0, before, rung, timers, oracle, first, fired, timer, now);
    FollowsKeys(rung, timers, Steps(oracle(first + |fired|)));
    HandledMore(t0, before, timers, fired, timer);
  }

  lemma HandledMore(t0: Timers, before: Timers, timers: Timers, fired: seq<Node>, timer: Node)
    requires timer in before && timers.Keys == before.Keys && HandledAre(t0, before, fired)
    requires forall t {:trigger timers[t]} :: t in timers ==> timers[t].handled == (t == timer || before[t].handled)
    ensures HandledAre(t0, timers, fired + [timer])
  {
    forall t {:trigger timers[t]} | t in timers
      ensures timers[t].handled <==> t in fired + [timer] || t0[t].handled
    {
      assert before[t] == before[t];
    }
  }

  /** The round is over and the inactive timers are off the list. */
  lemma RoundDone(z: Timers, start: seq<Node>, t0: Timers, t1: Timers, was: seq<Node>, timers: Timers,
                  listed: seq<Node>, oracle: nat -> seq<Act>, first: nat, fired: seq<Node>, now: int)
    requires t0.Keys == z.Keys && forall t {:trigger t0[t]} :: t in t0 ==>
      t0[t] == if t in start then z[t].(handled := false) else z[t]
    requires Progress(t0, t1, was, oracle, first, fired, now) && forall x :: x in was ==> !DueNow(t1, x, now)
    requires timers.Keys == t1.Keys && forall t {:trigger timers[t]} :: t in timers ==>
      timers[t].timeout == t1[t].timeout && timers[t].active == t1[t].active
    requires forall t {:trigger t in listed} :: t in listed ==> t in was
    ensures Follows(z, timers, LogOf(oracle, first, fired)) && FiredInTime(z, oracle, first, fired, now)
    ensures forall t {:trigger t in listed} :: t in listed && t in timers && t in z && timers[t].timeout <= now ==>
      t in fired || (t !in start && z[t].handled)
  {
    hide LogOf, ActiveAfter, TimeoutAfter;
    assert Settled(z) ==> Settled(t0);
    hide Settled;
    forall i {:trigger fired[i]} | 0 <= i < |fired|
      ensures fired[i] in z
      ensures TimeoutAfter(z[fired[i]].timeout, LogOf(oracle, first, fired[..i]), fired[i]) <= now
      ensures Settled(z) ==> ActiveAfter(z[fired[i]].active, LogOf(oracle, first, fired[..i]), fired[i])
    {
      assert t0[fired[i]] == t0[fired[i]];
    }
  }

  /** What became of a timer that was fired, and of one that nothing happened to. */
  lemma RoundMeans(z: Timers, timers: Timers, listed: seq<Node>, oracle: nat -> seq<Act>, first: nat, fired: seq<Node>)
    requires Follows(z, timers, LogOf(oracle, first, fired)) && Settled(timers) && FlagsOk(timers, listed)
    ensures forall j {:trigger fired[j]} :: 0 <= j < |fired| && fired[j] in timers ==>
      (NotRevived(oracle, first + j, first + |fired|, fired[j]) ==> fired[j] !in listed && !timers[fired[j]].active)
    ensures forall t {:trigger timers[t]} :: t in timers && t !in fired ==>
      (Untouched(oracle, first, first + |fired|, t) ==>
       && timers[t].active == z[t].active && timers[t].timeout == z[t].timeout && (t in listed <==> z[t].active))
  {
    hide LogOf, ActiveAfter, TimeoutAfter, NotRevived, Untouched;
    forall j {:trigger fired[j]} | 0 <= j < |fired| && fired[j] in timers &&
      NotRevived(oracle, first + j, first + |fired|, fired[j])
      ensures !timers[fired[j]].active
    {
      FiredGoes(z[fired[j]].active, oracle, first, fired, j);
    }
    forall t {:trigger timers[t]} | t in timers && t !in fired && Untouched(oracle, first, first + |fired|, t)
      ensures timers[t].active == z[t].active && timers[t].timeout == z[t].timeout
    {
      NothingHappens(z[t].active, z[t].timeout, oracle, first, fired, t);
    }
  }

  /** A timer that was fired and not added or scheduled since is inactive. */
  lemma {:induction false} FiredGoes(a: bool, oracle: nat -> seq<Act>, first: nat, fired: seq<Node>, j: nat)
    requires j < |fired| && NotRevived(oracle, first + j, first + |fired|, fired[j])
    ensures !ActiveAfter(a, LogOf(oracle, first, fired), fired[j])
  {
    var n, t := |fired| - 1, fired[j];
    var log, steps := LogOf(oracle, first, fired[..n]), Steps(oracle(first + n));
    AfterMore(a, 0, log, [Fired(fired[n])] + steps, t);
    AfterMore(ActiveAfter(a, log, t), 0, [Fired(fired[n])], steps, t);
    OneEvent(Fired(fired[n]));
    if j < n { FiredGoes(a, oracle, first, fired[..n], j); }
    StaysDown(oracle(first + n), t);
  }

  lemma {:induction false} StaysDown(acts: seq<Act>, t: Node)
    requires forall i {:trigger acts[i]} :: 0 <= i < |acts| ==> acts[i].t != t || acts[i].DeleteIt?
    ensures !ActiveAfter(false, Steps(acts), t)
    decreases |acts|
  {
    if acts != [] {
      var n := |acts| - 1;
      StaysDown(acts[..n], t);
      assert Steps(acts)[..n] == Steps(acts[..n]);
    }
  }

  lemma {:induction false} NothingHappens(a: bool, d: int, oracle: nat -> seq<Act>, first: nat, fired: seq<Node>,
                                          t: Node)
    requires t !in fired && Untouched(oracle, first, first + |fired|, t)
    ensures ActiveAfter(a, LogOf(oracle, first, fired), t) == a && TimeoutAfter(d, LogOf(oracle, first, fired), t) == d
    decreases |fired|
  {
    if fired != [] {
      var n := |fired| - 1;
      assert fired[n] in fired;
      UntouchedLast(oracle, first, first + n, t);
      hide ActiveAfter, TimeoutAfter, Steps, Untouched;
      NothingHappens(a, d, oracle, first, fired[..n], t);
      NotFired(a, d, LogOf(oracle, first, fired[..n]), fired[n], oracle(first + n), t);
    }
  }

  lemma UntouchedLast(oracle: nat -> seq<Act>, k: nat, n: nat, t: Node)
    requires Untouched(oracle, k, n + 1, t) && k <= n
    ensures Untouched(oracle, k, n, t)
    ensures var acts := oracle(n); forall i {:trigger acts[i]} :: 0 <= i < |acts| ==> acts[i].t != t
  {
  }

  lemma NotFired(a: bool, d: int, log: seq<Event>, x: Node, acts: seq<Act>, t: Node)
    requires t != x && ActiveAfter(a, log, t) == a && TimeoutAfter(d, log, t) == d
    requires forall i {:trigger acts[i]} :: 0 <= i < |acts| ==> acts[i].t != t
    ensures var all := log + ([Fired(x)] + Steps(acts)); ActiveAfter(a, all, t) == a && TimeoutAfter(d, all, t) == d
  {
    OneEvent(Fired(x));
    NotNamed(a, d, acts, t);
    hide ActiveAfter, TimeoutAfter, Steps;
    AfterMore(a, d, log, [Fired(x)] + Steps(acts), t);
    AfterMore(a, d, [Fired(x)], Steps(acts), t);
  }

  lemma {:induction false} NotNamed(a: bool, d: int, acts: seq<Act>, t: Node)
    requires forall i {:trigger acts[i]} :: 0 <= i < |acts| ==> acts[i].t != t
    ensures ActiveAfter(a, Steps(acts), t) == a && TimeoutAfter(d, Steps(acts), t) == d
    decreases |acts|
  {
    if acts != [] {
      var n := |acts| - 1;
      NotNamed(a, d, acts[..n], t);
      assert Steps(acts)[..n] == Steps(acts[..n]);
    }
  }

  /** Round `i` is the first one that reaches the time of timer `t`, which is active. */
  ghost predicate Rings(z: Timers, times: seq<int>, i: nat, t: Node)
    requires i < |times|
  {
    t in z && z[t].active && z[t].timeout <= times[i] && forall j :: 0 <= j < i ==> times[j] < z[t].timeout
  }

  /** After `n` rounds the timers are active whose time was not reached. */
  ghost predicate Remaining(z: Timers, timers: Timers, times: seq<int>, n: nat)
    requires n <= |times|
  {
    timers.Keys == z.Keys && forall t {:trigger timers[t]} :: t in timers ==>
      timers[t].timeout == z[t].timeout &&
      (timers[t].active <==> z[t].active && forall j :: 0 <= j < n ==> times[j] < z[t].timeout)
  }

  lemma ListedActive(timers: Timers, listed: seq<Node>)
    requires FlagsOk(timers, listed) && Settled(timers)
    ensures forall t {:trigger t in listed} :: t in listed <==> t in timers && timers[t].active
  {
  }

  /** One round with callbacks that do nothing. */
  lemma QuietRound(z: Timers, before: Timers, was: seq<Node>, timers: Timers, times: seq<int>, n: nat,
                   oracle: nat -> seq<Act>, first: nat, fired: seq<Node>)
    requires n < |times| && Remaining(z, before, times, n) && Settled(before) && Distinct(fired)
    requires forall k :: oracle(k) == []
    requires FiredInTime(before, oracle, first, fired, times[n])
    requires Follows(before, timers, LogOf(oracle, first, fired))
    requires forall t {:trigger t in was} :: t in was <==> t in before && before[t].active
    requires forall t {:trigger t in was} :: t in was && t in before && before[t].timeout <= times[n] ==> t in fired
    ensures forall t :: t in fired <==> Rings(z, times, n, t)
    ensures Remaining(z, timers, times, n + 1)
  {
    hide LogOf, ActiveAfter, TimeoutAfter, Settled;
    forall t | t in fired
      ensures t in before && before[t].active && before[t].timeout <= times[n]
    {
      var i :| 0 <= i < |fired| && fired[i] == t;
      assert t !in fired[..i];
      NothingHappens(before[t].active, before[t].timeout, oracle, first, fired[..i], t);
    }
    forall t
      ensures t in fired <==> Rings(z, times, n, t)
    {
      if t in before {
        assert before[t].timeout == z[t].timeout;
        assert t in was <==> before[t].active;
      }
    }
    forall t | t in timers
      ensures timers[t].timeout == before[t].timeout && (timers[t].active <==> before[t].active && t !in fired)
    {
      QuietTimer(before[t].active, before[t].timeout, oracle, first, fired, t);
    }
  }

  lemma {:induction false} QuietTimer(a: bool, d: int, oracle: nat -> seq<Act>, first: nat, fired: seq<Node>, t: Node)
    requires forall k :: oracle(k) == []
    ensures TimeoutAfter(d, LogOf(oracle, first, fired), t) == d
    ensures ActiveAfter(a, LogOf(oracle, first, fired), t) == (a && t !in fired)
    decreases |fired|
  {
    if fired != [] {
      var n := |fired| - 1;
      QuietTimer(a, d, oracle, first, fired[..n], t);
      assert [Fired(fired[n])] + Steps(oracle(first + n)) == [Fired(fired[n])];
      OneEvent(Fired(fired[n]));
      AfterMore(a, d, LogOf(oracle, first, fired[..n]), [Fired(fired[n])], t);
      assert fired == fired[..n] + [fired[n]];
    }
  }

  lemma FollowsKeys(t0: Timers, t1: Timers, log: seq<Event>)
    requires Follows(t0, t1, log)
    ensures t1.Keys == t0.Keys
  {
  }

  lemma ProgressLog(t0: Timers, before: Timers, rung: Timers, timers: Timers, oracle: nat -> seq<Act>, first: nat,
                    fired: seq<Node>, timer: Node, now: int)
    requires timer in before && before[timer].timeout <= now
    requires Follows(t0, before, LogOf(oracle, first, fired)) && FiredInTime(t0, oracle, first, fired, now)
    requires Settled(t0) ==> before[timer].active
    requires Follows(before, rung, [Fired(timer)]) && Follows(rung, timers, Steps(oracle(first + |fired|)))
    ensures Follows(t0, timers, LogOf(oracle, first, fired + [timer]))
    ensures FiredInTime(t0, oracle, first, fired + [timer], now)
  {
    hide *;
    var acts := Steps(oracle(first + |fired|));
    LogMore(oracle, first, fired, timer);
    FollowsMore(before, rung, timers, [Fired(timer)], acts);
    FollowsMore(t0, before, timers, LogOf(oracle, first, fired), [Fired(timer)] + acts);
    InTimeMore(t0, before, oracle, first, fired, timer, now);
  }

  lemma InTimeMore(t0: Timers, before: Timers, oracle: nat -> seq<Act>, first: nat, fired: seq<Node>, timer: Node,
                   now: int)
    requires timer in before && Follows(t0, before, LogOf(oracle, first, fired))
    requires FiredInTime(t0, oracle, first, fired, now) && before[timer].timeout <= now
    requires Settled(t0) ==> before[timer].active
    ensures FiredInTime(t0, oracle, first, fired + [timer], now)
  {
    hide LogOf, ActiveAfter, TimeoutAfter, Settled;
    var all := fired + [timer];
    forall i {:trigger all[i]} | 0 <= i < |all|
      ensures all[i] in t0
      ensures TimeoutAfter(t0[all[i]].timeout, LogOf(oracle, first, all[..i]), all[i]) <= now
      ensures Settled(t0) ==> ActiveAfter(t0[all[i]].active, LogOf(oracle, first, all[..i]), all[i])
    {
      assert all[..i] == fired[..i];
      if i < |fired| {
        assert all[i] == fired[i];
      } else {
        assert fired[..i] == fired;
      }
    }
  }

  /** One of the first `n` steps deletes or reschedules `t`. */
  ghost predicate Named(acts: seq<Act>, n: nat, t: Node) {
    exists i :: 0 <= i < n && i < |acts| && acts[i].t == t && !acts[i].AddIt?
  }

  lemma NamedMore(acts: seq<Act>, n: nat)
    requires n < |acts|
    ensures forall t :: Named(acts, n, t) ==> Named(acts, n + 1, t)
    ensures !acts[n].AddIt? ==> Named(acts, n + 1, acts[n].t)
  {
  }

  /** Every timer that was listed and due when the round began has been fired, or was deleted or
      rescheduled, or still waits to be fired. */
  ghost predicate Waiting(start: seq<Node>, t0: Timers, now: int, timers: Timers, listed: seq<Node>, fired: seq<Node>,
                          disturbed: set<Node>) {
    forall t {:trigger t in start} :: t in start && t in t0 && t0[t].timeout <= now ==>
      t in fired || t in disturbed || (t in listed && DueNow(timers, t, now))
  }

  lemma WaitingStart(start: seq<Node>, t0: Timers, now: int)
    requires FlagsOk(t0, start) && forall t :: t in start && t in t0 ==> !t0[t].handled
    ensures Waiting(start, t0, now, t0, start, [], {})
  {
  }

  lemma WaitingStep(start: seq<Node>, t0: Timers, now: int, before: Timers, was: seq<Node>, d: set<Node>, timer: Node,
                    timers: Timers, listed: seq<Node>, fired: seq<Node>, disturbed: set<Node>)
    requires fired != [] && fired[|fired| - 1] == timer && timer in before
    requires d <= disturbed && Waiting(start, t0, now, before, was, fired[..|fired| - 1], d)
    requires timers.Keys == before.Keys && forall t {:trigger timers[t]} :: t in timers ==>
      timers[t].handled == (t == timer || before[t].handled)
    requires forall t {:trigger t in listed} :: t in was && t !in fired && t !in disturbed ==>
      t in listed && t in timers && timers[t].timeout == before[t].timeout
    ensures Waiting(start, t0, now, timers, listed, fired, disturbed)
  {
    assert fired == fired[..|fired| - 1] + [timer];
    forall t {:trigger t in start} | t in start && t in t0 && t0[t].timeout <= now
      ensures t in fired || t in disturbed || (t in listed && DueNow(timers, t, now))
    {
      if t !in fired && t !in disturbed {
        assert t in was && DueNow(before, t, now);
        assert t in listed;
      }
    }
  }

  lemma WaitingDone(start: seq<Node>, t0: Timers, now: int, timers: Timers, listed: seq<Node>, fired: seq<Node>,
                    disturbed: set<Node>)
    requires Waiting(start, t0, now, timers, listed, fired, disturbed) && forall x :: x in listed ==>
      !DueNow(timers, x, now)
    ensures forall t :: t in start && t in t0 && t0[t].timeout <= now ==> t in fired || t in disturbed
  {
  }

  lemma FewerLeft(before: Timers, timer: Node, timers: Timers)
    requires timers.Keys == before.Keys && timer in before && !before[timer].handled
    requires forall t {:trigger timers[t]} :: t in timers ==> timers[t].handled == (t == timer || before[t].handled)
    ensures |Unhandled(timers)| < |Unhandled(before)|
  {
    forall x
      ensures x in Unhandled(timers) <==> x in Unhandled(before) && x != timer
    {
      assert x in timers ==> timers[x].handled == (x == timer || before[x].handled);
    }
    assert timer in Unhandled(before) && Unhandled(timers) == Unhandled(before) - {timer};
  }

  lemma AppendDistinct(s: seq<Node>, x: Node)
    requires Distinct(s) && x !in s
    ensures Distinct(s + [x])
  {
  }

  /** The active timers among `s`. */
  ghost function Kept(timers: Timers, s: seq<Node>): seq<Node> {
    if s == [] then []
    else
      var t := s[|s| - 1];
      Kept(timers, s[..|s| - 1]) + if t in timers && timers[t].active then [t] else []
  }

  lemma {:induction false} KeptIs(timers: Timers, s: seq<Node>)
    ensures forall t :: t in Kept(timers, s) <==> t in s && t in timers && timers[t].active
  {
    if s != [] {
      KeptIs(timers, s[..|s| - 1]);
      assert s == s[..|s| - 1] + [s[|s| - 1]];
    }
  }

  /** The state after the sweep passed the first `i` entries of the list `all`. */
  ghost predicate Swept(t0: Timers, all: seq<Node>, i: nat, timers: Timers, listed: seq<Node>) {
    && i <= |all| && Distinct(all) && FlagsOk(t0, all) && timers.Keys == t0.Keys
    && listed == Kept(t0, all[..i]) + all[i..]
    && (forall t {:trigger timers[t]} :: t in timers ==>
          timers[t] == if t in all[..i] then t0[t].(handled := false, inList := t0[t].active) else t0[t])
  }

  lemma SweepHere(t0: Timers, all: seq<Node>, i: nat, timers: Timers, listed: seq<Node>)
    requires Swept(t0, all, i, timers, listed) && i < |all|
    ensures all[i] in timers && timers[all[i]] == t0[all[i]] && all[i] in listed
    ensures var k := |Kept(t0, all[..i])|; k < |listed| && listed[k] == all[i]
  {
    assert all[i] in all;
    var k := |Kept(t0, all[..i])|;
    assert listed[k] == all[i];
    if all[i] in all[..i] { NotBefore(all, i); assert false; }
  }

  lemma NotBefore(all: seq<Node>, i: nat)
    requires Distinct(all) && i < |all|
    ensures all[i] !in all[..i]
  {
  }

  lemma SweepOne(t0: Timers, all: seq<Node>, i: nat, before: seq<Node>, listed: seq<Node>, timers: Timers)
    requires i < |all| && all[i] in t0 && Distinct(all) && FlagsOk(t0, all) && timers.Keys == t0.Keys
    requires before == Kept(t0, all[..i]) + all[i..] && Distinct(before)
    requires listed == if t0[all[i]].active then before else Without(before, all[i])
    requires forall t {:trigger timers[t]} :: t in timers ==>
      timers[t] == if t == all[i] || t in all[..i] then t0[t].(handled := false, inList := t0[t].active) else t0[t]
    ensures Swept(t0, all, i + 1, timers, listed)
  {
    OneMore(all, i);
    SweptList(t0, all, i, before, listed);
    hide Kept, FlagsOk, Without, Distinct;
    forall t {:trigger timers[t]} | t in timers
      ensures timers[t] == if t in all[..i + 1] then t0[t].(handled := false, inList := t0[t].active) else t0[t]
    {
      assert t in all[..i + 1] <==> t in all[..i] || t == all[i];
    }
  }

  lemma OneMore(s: seq<Node>, i: nat)
    requires i < |s|
    ensures s[..i + 1] == s[..i] + [s[i]] && s[..i + 1][..i] == s[..i]
  {
  }

  lemma SweptList(t0: Timers, all: seq<Node>, i: nat, before: seq<Node>, listed: seq<Node>)
    requires i < |all| && all[i] in t0
    requires before == Kept(t0, all[..i]) + all[i..] && Distinct(before)
    requires listed == if t0[all[i]].active then before else Without(before, all[i])
    ensures listed == Kept(t0, all[..i + 1]) + all[i + 1..]
  {
    OneMore(all, i);
    var kept := Kept(t0, all[..i]);
    assert Kept(t0, all[..i + 1]) == if t0[all[i]].active then kept + [all[i]] else kept;
    hide Kept, Distinct;
    assert all[i..] == [all[i]] + all[i + 1..];
    if t0[all[i]].active {
      assert kept + all[i..] == (kept + [all[i]]) + all[i + 1..];
    } else {
      assert before[|kept|] == all[i];
      WithoutAt(before, |kept|);
      assert before[..|kept|] == kept && before[|kept| + 1..] == all[i + 1..];
    }
  }

  lemma SweepNext(next: map<Node, Node>, prev: map<Node, Node>, t0: Timers, all: seq<Node>, i: nat, timers: Timers,
                  listed: seq<Node>)
    requires Ring(next, prev, HEAD, listed) &&
      (Swept(t0, all, i, timers, listed) || (i == 0 && all == listed && t0 == timers && FlagsOk(t0, all)))
    ensures Swept(t0, all, i, timers, listed)
    ensures var pos := EntryAt(HEAD, all, i); pos in next && (i < |all| ==> next[pos] == EntryAt(HEAD, all, i + 1))
  {
    if i == 0 && all == listed && t0 == timers && FlagsOk(t0, all) {
      assert all[..0] == [] && Kept(t0, []) + all[0..] == all;
    }
    RingFirst(next, prev, HEAD, listed);
    if i < |all| {
      var k := |Kept(t0, all[..i])|;
      assert listed[k] == all[i] && EntryAt(HEAD, listed, k + 1) == EntryAt(HEAD, all, i + 1);
      RingStep(next, prev, HEAD, listed, k);
    }
  }

  lemma SweepEnd(t0: Timers, all: seq<Node>, timers: Timers, listed: seq<Node>)
    requires Swept(t0, all, |all|, timers, listed)
    ensures Settled(timers) && timers.Keys == t0.Keys
    ensures forall t {:trigger t in listed} :: t in listed <==> t in all && t0[t].active
    ensures forall t {:trigger timers[t]} :: t in timers ==>
        timers[t].timeout == t0[t].timeout && timers[t].active == t0[t].active
        && timers[t].handled == (t !in all && t0[t].handled)
  {
    assert all[..|all|] == all;
    assert listed == Kept(t0, all);
    KeptIs(t0, all);
  }
}
