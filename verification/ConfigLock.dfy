/** The lock that lets one terminal at a time change the configuration.

    The program keeps two flags, one per terminal and one for all of them. The rule they implement
    needs neither: a terminal enters a configuration node exactly when no other terminal is in one.
    The functions on seats are that rule; the class is the program, with the flags. */
module ConfigLock {

  datatype Option<T> = None | Some(value: T)

  /** The nodes a terminal can be in, in the order of the source's enumeration. */
  datatype Node = AuthNode | ViewNode | AuthEnableNode | EnableNode | ConfigNode | VtyNode | SubscrNode

  function Rank(n: Node): nat {
    match n
    case AuthNode => 0
    case ViewNode => 1
    case AuthEnableNode => 2
    case EnableNode => 3
    case ConfigNode => 4
    case VtyNode => 7
    case SubscrNode => 12
  }

  predicate Configuring(n: Node) {
    n == ConfigNode || n == VtyNode
  }

  predicate AsksPassword(n: Node) {
    n == AuthNode || n == AuthEnableNode
  }

  datatype Code = Success | Warning | Failed(number: int)

  /** The commands that change node, status or lock. `Enable(asks)` knows whether a password is set. */
  datatype Command =
    | Exit | End | ConfigureTerminal | Enable(asks: bool) | Disable | LineVty | Other(code: Code)

  /** Where each command can be typed. */
  predicate Installed(n: Node, c: Command) {
    match c
    case Exit => n in {ViewNode, EnableNode, ConfigNode, VtyNode}
    case End => n in {EnableNode, ConfigNode, VtyNode}
    case ConfigureTerminal => n == EnableNode
    case Enable(_) => n == ViewNode
    case Disable => n == EnableNode
    case LineVty => n == ConfigNode
    case Other(_) => true
  }

  datatype Resolved = Runs(cmd: Command) | Fails(number: int)

  const NO_MATCH := 2

  /** A typed line: whether its first word is "do", what the whole line resolves to in each node
      that has commands, and what the words after the first resolve to in the enable node. */
  datatype Line = Line(
    startsWithDo: bool, inView: Resolved, inEnable: Resolved, inConfig: Resolved, inVty: Resolved, shifted: Resolved) {

    function At(n: Node): Resolved {
      match n
      case ViewNode => inView
      case EnableNode => inEnable
      case ConfigNode => inConfig
      case VtyNode => inVty
      case _ => Fails(NO_MATCH)
    }
  }

  predicate InstalledAt(n: Node, r: Resolved) {
    r.Runs? ==> Installed(n, r.cmd)
  }

  predicate Legal(line: Line) {
    && InstalledAt(ViewNode, line.inView) && InstalledAt(EnableNode, line.inEnable)
    && InstalledAt(ConfigNode, line.inConfig) && InstalledAt(VtyNode, line.inVty)
    && InstalledAt(EnableNode, line.shifted)
  }

  /** What reaches a terminal. `passes`: the text is the password asked for; `toEnable`: a login
      leads straight to the enable node. */
  datatype Key =
    | Enter(line: Line, passes: bool, toEnable: bool)
    | StopInput
    | EndConfig
    | DeleteOnEmptyLine

  predicate LegalKeys(keys: seq<Key>) {
    forall i :: 0 <= i < |keys| && keys[i].Enter? ==> Legal(keys[i].line)
  }

  datatype Act =
    | Connect(fd: int, start: Node, refused: bool)
    | Input(fd: int, keys: seq<Key>, hangup: bool)

  predicate LegalAct(act: Act) {
    match act
    case Connect(_, start, refused) =>
      start in {AuthNode, ViewNode, EnableNode} && (refused ==> start == AuthNode)
    case Input(_, keys, _) => LegalKeys(keys)
  }

  // ---------------------------------------------------------------------------------------------
  // The rule, without flags

  datatype Seat = Seat(node: Node, closing: bool, fails: nat)

  type Seats = map<int, Seat>

  /** Some terminal other than `fd` is in a configuration node. */
  predicate Busy(seats: Seats, fd: int) {
    exists g :: g in seats && g != fd && Configuring(seats[g].node)
  }

  predicate Exclusive(seats: Seats) {
    forall f, g :: f in seats && g in seats && Configuring(seats[f].node) && Configuring(seats[g].node) ==> f == g
  }

  function Parent(n: Node): Node {
    if n == SubscrNode then ViewNode else ConfigNode
  }

  predicate AllowsDo(n: Node) {
    n !in {AuthNode, ViewNode, AuthEnableNode, EnableNode}
  }

  predicate Works(r: Resolved) {
    r.Runs? && (r.cmd.Other? ==> !r.cmd.code.Failed?)
  }

  function AfterCommand(s: Seat, busy: bool, c: Command): Seat {
    match c
    case Exit =>
      (match s.node
       case SubscrNode => s.(node := ViewNode)
       case ViewNode => s.(closing := true)
       case EnableNode => s.(closing := true)
       case ConfigNode => s.(node := EnableNode)
       case VtyNode => s.(node := ConfigNode)
       case _ => s)
    case End => if Configuring(s.node) then s.(node := EnableNode) else s
    case ConfigureTerminal => if busy then s else s.(node := ConfigNode)
    case Enable(asks) => s.(node := if asks then AuthEnableNode else EnableNode)
    case Disable => if s.node == EnableNode then s.(node := ViewNode) else s
    case LineVty => s.(node := VtyNode)
    case Other(_) => s
  }

  /** Commands that lead into a node and out of it again take each other back: "configure terminal" and
      "exit" or "end", "line vty" and "exit", "enable" and "disable"; "exit" from the enable node or the
      view node closes the session. */
  lemma ThereAndBack(s: Seat, asks: bool)
    ensures s.node == EnableNode ==>
      var c := AfterCommand(s, false, ConfigureTerminal);
      && c.node == ConfigNode && AfterCommand(c, false, Exit) == s && AfterCommand(c, false, End) == s
      && AfterCommand(AfterCommand(c, false, LineVty), false, Exit) == c
      && AfterCommand(AfterCommand(c, false, LineVty), false, End) == s
    ensures s.node == ViewNode ==> AfterCommand(AfterCommand(s, false, Enable(false)), false, Disable) == s
    ensures s.node == ViewNode || s.node == EnableNode ==> AfterCommand(s, false, Exit) == s.(closing := true)
    ensures s.node == ViewNode ==>
      AfterCommand(s, false, Enable(asks)).node == if asks then AuthEnableNode else EnableNode
  {
  }

  /** A "do" line leaves the terminal where it is; any other line runs in the first node, from
      the terminal's own towards the configuration node, where it works, and the terminal stays
      where it is when there is none. */
  function AfterLine(s: Seat, busy: bool, line: Line): Seat {
    if line.startsWithDo && AllowsDo(s.node) then
      if line.shifted.Runs? then
        s.(closing := AfterCommand(s.(node := EnableNode), busy, line.shifted.cmd).closing)
      else s
    else if Works(line.At(s.node)) then AfterCommand(s, busy, line.At(s.node).cmd)
    else if Rank(s.node) > Rank(ConfigNode) && Works(line.At(Parent(s.node))) then
      AfterCommand(s.(node := Parent(s.node)), busy, line.At(Parent(s.node)).cmd)
    else s
  }

  /** A "do" line never moves the terminal, and only "exit" behind it closes the session. Another line that
      works where the terminal is means what it means there. One that only works in the configuration
      node acts as if the terminal were there, and one that works nowhere does nothing. */
  lemma LineRuns(s: Seat, busy: bool, line: Line, other: Line)
    requires Legal(line)
    ensures line.startsWithDo && AllowsDo(s.node) ==>
      AfterLine(s, busy, line) == s.(closing := s.closing || line.shifted == Runs(Exit))
    ensures !line.startsWithDo && !other.startsWithDo && Works(line.At(s.node)) ==>
      (other.At(s.node) == line.At(s.node) ==> AfterLine(s, busy, line) == AfterLine(s, busy, other))
    ensures !line.startsWithDo && s.node == VtyNode && !Works(line.inVty) && Works(line.inConfig) ==>
      AfterLine(s, busy, line) == AfterLine(s.(node := ConfigNode), busy, line)
    ensures !line.startsWithDo && (forall n: Node :: !Works(line.At(n))) ==> AfterLine(s, busy, line) == s
  {
  }

  /** The control keys: two of them end configuring, from both of its nodes, and the third leaves one node
      after the other and then closes the session. */
  lemma ControlKeys(s: Seat, busy: bool)
    ensures var c, z := AfterKey(s, busy, StopInput), AfterKey(s, busy, EndConfig);
      && c == z && c == s.(node := c.node)
      && c.node == (if s.node == ConfigNode || s.node == VtyNode then EnableNode else s.node)
    ensures s.node == VtyNode ==>
      var keys := [DeleteOnEmptyLine, DeleteOnEmptyLine, DeleteOnEmptyLine];
      && AfterKeys(s, busy, keys[..1]) == s.(node := ConfigNode)
      && AfterKeys(s, busy, keys[..2]) == s.(node := EnableNode)
      && AfterKeys(s, busy, keys) == s.(node := EnableNode, closing := true)
    ensures s.node == ViewNode ==> AfterKey(s, busy, DeleteOnEmptyLine) == s.(closing := true)
    ensures AsksPassword(s.node) ==> AfterKey(s, busy, DeleteOnEmptyLine) == s
  {
    var keys := [DeleteOnEmptyLine, DeleteOnEmptyLine, DeleteOnEmptyLine];
    assert keys[..1] == [DeleteOnEmptyLine] && keys[..2] == [DeleteOnEmptyLine, DeleteOnEmptyLine];
    assert keys[..2][..1] == keys[..1] && keys[..1][..0] == [] && keys[..3] == keys;
  }

  const MAX_FAILS := 3

  function AfterPassword(s: Seat, passes: bool, toEnable: bool): Seat
    requires AsksPassword(s.node)
  {
    if passes then
      s.(node := if s.node == AuthEnableNode || toEnable then EnableNode else ViewNode, fails := 0)
    else if s.fails + 1 < MAX_FAILS then s.(fails := s.fails + 1)
    else if s.node == AuthNode then s.(fails := s.fails + 1, closing := true)
    else s.(fails := 0, node := ViewNode)
  }

  function AfterKey(s: Seat, busy: bool, key: Key): Seat {
    match key
    case Enter(line, passes, toEnable) =>
      if AsksPassword(s.node) then AfterPassword(s, passes, toEnable) else AfterLine(s, busy, line)
    case StopInput => AfterCommand(s, busy, End)
    case EndConfig => AfterCommand(s, busy, End)
    case DeleteOnEmptyLine => if AsksPassword(s.node) then s else AfterCommand(s, busy, Exit)
  }

  /** Wrong passwords, up to three in a row: the third one closes a session at the login prompt, and takes
      one at the prompt for the enable node back to the view node, with its count at zero. */
  lemma {:induction false} WrongPasswords(s: Seat, busy: bool, wrong: seq<Key>)
    requires AsksPassword(s.node) && s.fails == 0 && |wrong| <= 3
    requires forall i :: 0 <= i < |wrong| ==> wrong[i].Enter? && !wrong[i].passes
    ensures AfterKeys(s, busy, wrong) ==
      if |wrong| < 3 then Seat(s.node, s.closing, |wrong|)
      else if s.node == AuthNode then Seat(AuthNode, true, 3)
      else Seat(ViewNode, s.closing, 0)
    decreases |wrong|
  {
    if wrong != [] {
      WrongPasswords(s, busy, wrong[..|wrong| - 1]);
    }
  }

  /** The right one behind fewer than three wrong ones leads on, and the count is at zero again. */
  lemma RightPassword(s: Seat, busy: bool, wrong: seq<Key>, right: Key)
    requires AsksPassword(s.node) && s.fails == 0 && |wrong| < 3
    requires forall i :: 0 <= i < |wrong| ==> wrong[i].Enter? && !wrong[i].passes
    requires right.Enter? && right.passes
    ensures var t := AfterKeys(s, busy, wrong + [right]);
      && t.closing == s.closing && t.fails == 0
      && (s.node == AuthEnableNode ==> t.node == EnableNode)
      && (s.node == AuthNode ==> t.node == if right.toEnable then EnableNode else ViewNode)
  {
    WrongPasswords(s, busy, wrong);
    assert (wrong + [right])[..|wrong|] == wrong;
  }

  function AfterKeys(s: Seat, busy: bool, keys: seq<Key>): Seat {
    if keys == [] then s
    else AfterKey(AfterKeys(s, busy, keys[..|keys| - 1]), busy, keys[|keys| - 1])
  }

  function AfterAct(seats: Seats, act: Act): Seats {
    match act
    case Connect(fd, start, refused) =>
      if fd in seats || refused then seats else seats[fd := Seat(start, false, 0)]
    case Input(fd, keys, hangup) =>
      if fd !in seats then seats else
      var s := if hangup then seats[fd].(closing := true) else AfterKeys(seats[fd], Busy(seats, fd), keys);
      if s.closing then seats - {fd} else seats[fd := s]
  }

  function AfterAll(seats: Seats, acts: seq<Act>): Seats {
    if acts == [] then seats else AfterAct(AfterAll(seats, acts[..|acts| - 1]), acts[|acts| - 1])
  }

  /** A terminal that is shut out stays out of the configuration nodes, whatever is typed. */
  lemma {:induction false} ShutOut(s: Seat, keys: seq<Key>)
    requires LegalKeys(keys) && !Configuring(s.node) && s.node != SubscrNode
    ensures !Configuring(AfterKeys(s, true, keys).node) && AfterKeys(s, true, keys).node != SubscrNode
  {
    if keys != [] {
      ShutOut(s, keys[..|keys| - 1]);
      var last := keys[|keys| - 1];
      if last.Enter? { assert Legal(last.line); }
    }
  }

  ghost predicate Ready(seats: Seats) {
    && Exclusive(seats)
    && forall f :: f in seats ==> seats[f].node != SubscrNode && !seats[f].closing
  }

  /** No key ever leads to the subscriber node. */
  lemma {:induction false} NeverSubscr(s: Seat, busy: bool, keys: seq<Key>)
    requires LegalKeys(keys) && s.node != SubscrNode
    ensures AfterKeys(s, busy, keys).node != SubscrNode
  {
    if keys != [] {
      NeverSubscr(s, busy, keys[..|keys| - 1]);
      var last := keys[|keys| - 1];
      if last.Enter? { assert Legal(last.line); }
    }
  }

  lemma ActKeepsExclusive(seats: Seats, act: Act)
    requires Ready(seats) && LegalAct(act)
    ensures Ready(AfterAct(seats, act))
  {
    if act.Input? && act.fd in seats && !act.hangup {
      NeverSubscr(seats[act.fd], Busy(seats, act.fd), act.keys);
      if g :| g in seats && g != act.fd && Configuring(seats[g].node) {
        assert Busy(seats, act.fd);
        if Configuring(seats[act.fd].node) { assert false; }
        ShutOut(seats[act.fd], act.keys);
      }
    }
  }

  /** The rule is enough for mutual exclusion: over any run at most one terminal configures. */
  lemma {:induction false} RunKeepsExclusive(seats: Seats, acts: seq<Act>)
    requires Ready(seats) && forall i :: 0 <= i < |acts| ==> LegalAct(acts[i])
    ensures Ready(AfterAll(seats, acts))
  {
    if acts != [] {
      RunKeepsExclusive(seats, acts[..|acts| - 1]);
      ActKeepsExclusive(AfterAll(seats, acts[..|acts| - 1]), acts[|acts| - 1]);
    }
  }

  // ---------------------------------------------------------------------------------------------
  // The program, with its flags

  class Vty {
    var node: Node
    var config: bool
    var closing: bool
    var fail: nat

    constructor (start: Node)
      ensures node == start && !config && !closing && fail == 0
    {
      node, config, closing, fail := start, false, false, 0;
    }
  }

  class Terminals {
    var vtyConfig: bool
    var vtyvec: map<int, Vty>
    ghost var holder: Option<int>

    /** The two flags say who holds the lock, and nobody else does. */
    ghost predicate Flags()
      reads this, vtyvec.Values
    {
      && (forall f, g :: f in vtyvec && g in vtyvec && f != g ==> vtyvec[f] != vtyvec[g])
      && (forall f :: f in vtyvec ==> (vtyvec[f].config <==> holder == Some(f)))
      && vtyConfig == holder.Some?
      && (holder.Some? ==> holder.value in vtyvec)
    }

    /** Between two calls a terminal is in a configuration node exactly when it holds the lock. */
    ghost predicate Valid()
      reads this, vtyvec.Values
    {
      && Flags()
      && (forall f :: f in vtyvec ==> (Configuring(vtyvec[f].node) <==> vtyvec[f].config))
      && (forall f :: f in vtyvec ==> vtyvec[f].node != SubscrNode)
    }

    function SeatOf(fd: int): Seat
      requires fd in vtyvec
      reads this, vtyvec.Values
    {
      assert vtyvec[fd] in vtyvec.Values;
      Seat(vtyvec[fd].node, vtyvec[fd].closing, vtyvec[fd].fail)
    }

    function Seated(): Seats
      reads this, vtyvec.Values
    {
      map f | f in vtyvec :: SeatOf(f)
    }

    /** Someone else holds the lock. */
    ghost predicate HeldByOther(fd: int)
      reads this
    {
      holder.Some? && holder != Some(fd)
    }

    lemma HeldIsBusy(fd: int)
      requires Valid()
      ensures HeldByOther(fd) <==> Busy(Seated(), fd)
      ensures Exclusive(Seated())
    {
      if HeldByOther(fd) {
        var g := holder.value;
        assert vtyvec[g].config;
        assert g in Seated() && Configuring(Seated()[g].node);
      }
    }

    constructor ()
      ensures Valid() && Seated() == map[]
    {
      vtyConfig, vtyvec, holder := false, map[], None;
    }

    method ConfigLock(fd: int) returns (ok: bool)
      requires Flags() && fd in vtyvec
      modifies this`vtyConfig, this`holder, vtyvec[fd]
      ensures Flags() && SeatOf(fd) == old(SeatOf(fd))
      ensures ok <==> !old(HeldByOther(fd))
      ensures holder == if ok then Some(fd) else old(holder)
    {
      if !vtyConfig {
        vtyvec[fd].config := true;
        vtyConfig := true;
        holder := Some(fd);
      }
      ok := vtyvec[fd].config;
    }

    method ConfigUnlock(fd: int) returns (still: bool)
      requires Flags() && fd in vtyvec
      modifies this`vtyConfig, this`holder, vtyvec[fd]
      ensures Flags() && SeatOf(fd) == old(SeatOf(fd)) && !still
      ensures holder == if old(holder) == Some(fd) then None else old(holder)
    {
      if vtyConfig && vtyvec[fd].config {
        vtyvec[fd].config := false;
        vtyConfig := false;
        holder := None;
      }
      still := vtyvec[fd].config;
    }

    /** Leaving the configuration by "exit". */
    method ExitNode(fd: int)
      requires Flags() && fd in vtyvec
      modifies this`vtyConfig, this`holder, vtyvec[fd]
      ensures Flags()
      ensures SeatOf(fd) == AfterCommand(old(SeatOf(fd)), old(HeldByOther(fd)), Exit)
      ensures holder ==
        if old(vtyvec[fd].node) == ConfigNode && old(holder) == Some(fd) then None else old(holder)
    {
      var vty := vtyvec[fd];
      match vty.node {
        case SubscrNode =>
          vty.node := ViewNode;
        case ViewNode =>
          vty.closing := true;
        case EnableNode =>
          vty.closing := true;
        case ConfigNode =>
          vty.node := EnableNode;
          var _ := ConfigUnlock(fd);
        case VtyNode =>
          vty.node := ConfigNode;
        case _ =>
      }
    }

    /** "end", and what the control keys that stop the input do to the node. */
    method EndNode(fd: int)
      requires Flags() && fd in vtyvec
      modifies this`vtyConfig, this`holder, vtyvec[fd]
      ensures Flags()
      ensures SeatOf(fd) == AfterCommand(old(SeatOf(fd)), old(HeldByOther(fd)), End)
      ensures holder ==
        if Configuring(old(vtyvec[fd].node)) && old(holder) == Some(fd) then None else old(holder)
    {
      var vty := vtyvec[fd];
      match vty.node {
        case ConfigNode =>
          var _ := ConfigUnlock(fd);
          vty.node := EnableNode;
        case VtyNode =>
          var _ := ConfigUnlock(fd);
          vty.node := EnableNode;
        case _ =>
      }
    }

    method ConfigTerminal(fd: int) returns (code: Code)
      requires Flags() && fd in vtyvec
      modifies this`vtyConfig, this`holder, vtyvec[fd]
      ensures Flags()
      ensures SeatOf(fd) == AfterCommand(old(SeatOf(fd)), old(HeldByOther(fd)), ConfigureTerminal)
      ensures holder == if old(HeldByOther(fd)) then old(holder) else Some(fd)
      ensures code == if old(HeldByOther(fd)) then Warning else Success
    {
      var ok := ConfigLock(fd);
      if ok {
        vtyvec[fd].node := ConfigNode;
        code := Success;
      } else {
        code := Warning;
      }
    }

    /** Who holds the lock after a command typed in node `n`. */
    ghost function HolderAfter(fd: int, n: Node, c: Command): Option<int>
      reads this
    {
      if c.ConfigureTerminal? && !HeldByOther(fd) then Some(fd)
      else if holder == Some(fd) && ((c.Exit? && n == ConfigNode) || (c.End? && Configuring(n))) then None
      else holder
    }

    method Perform(fd: int, c: Command) returns (code: Code)
      requires Flags() && fd in vtyvec
      modifies this`vtyConfig, this`holder, vtyvec[fd]
      ensures Flags()
      ensures SeatOf(fd) == AfterCommand(old(SeatOf(fd)), old(HeldByOther(fd)), c)
      ensures holder == old(HolderAfter(fd, vtyvec[fd].node, c))
      ensures code.Failed? <==> c.Other? && c.code.Failed?
      ensures c.Other? ==> code == c.code
    {
      var vty := vtyvec[fd];
      code := Success;
      match c {
        case Exit =>
          ExitNode(fd);
        case End =>
          EndNode(fd);
        case ConfigureTerminal =>
          code := ConfigTerminal(fd);
        case Enable(asks) =>
          vty.node := if asks then AuthEnableNode else EnableNode;
        case Disable =>
          if vty.node == EnableNode {
            vty.node := ViewNode;
          }
        case LineVty =>
          vty.node := VtyNode;
        case Other(result) =>
          code := result;
      }
    }

    method ExecuteReal(fd: int, r: Resolved) returns (code: Code)
      requires Flags() && fd in vtyvec
      modifies this`vtyConfig, this`holder, vtyvec[fd]
      ensures Flags()
      ensures SeatOf(fd) ==
        if r.Runs? then AfterCommand(old(SeatOf(fd)), old(HeldByOther(fd)), r.cmd) else old(SeatOf(fd))
      ensures holder == if r.Runs? then old(HolderAfter(fd, vtyvec[fd].node, r.cmd)) else old(holder)
      ensures code.Failed? <==> !Works(r)
      ensures r.Fails? ==> code == Failed(r.number)
      ensures r.Runs? && r.cmd.Other? ==> code == r.cmd.code
    {
      match r {
        case Runs(c) => code := Perform(fd, c);
        case Fails(number) => code := Failed(number);
      }
    }

    /** Running a resolved line where the terminal is, with the rest of the state in order. */
    method ExecuteHere(fd: int, r: Resolved) returns (code: Code)
      requires Valid() && fd in vtyvec && (r.Runs? ==> Installed(vtyvec[fd].node, r.cmd))
      modifies this`vtyConfig, this`holder, vtyvec[fd]
      ensures Valid()
      ensures HeldByOther(fd) == old(HeldByOther(fd))
      ensures SeatOf(fd) ==
        if r.Runs? then AfterCommand(old(SeatOf(fd)), old(HeldByOther(fd)), r.cmd) else old(SeatOf(fd))
      ensures code.Failed? <==> !Works(r)
    {
      code := ExecuteReal(fd, r);
    }

    method GoParent(fd: int)
      requires fd in vtyvec && Rank(vtyvec[fd].node) > Rank(ConfigNode)
      modifies vtyvec[fd]
      ensures SeatOf(fd) == old(SeatOf(fd)).(node := Parent(old(vtyvec[fd].node)))
      ensures vtyvec[fd].config == old(vtyvec[fd].config)
    {
      if vtyvec[fd].node == SubscrNode {
        vtyvec[fd].node := ViewNode;
      } else {
        vtyvec[fd].node := ConfigNode;
      }
    }

    /** A line after "do" is tried as if typed in the enable node. */
    method ExecuteDo(fd: int, line: Line) returns (code: Code)
      requires Valid() && fd in vtyvec && Legal(line)
      requires line.startsWithDo && AllowsDo(vtyvec[fd].node)
      modifies this`vtyConfig, this`holder, vtyvec[fd]
      ensures Valid()
      ensures SeatOf(fd) == AfterLine(old(SeatOf(fd)), old(HeldByOther(fd)), line)
      ensures holder == old(holder)
    {
      var onode := vtyvec[fd].node;
      vtyvec[fd].node := EnableNode;
      code := ExecuteReal(fd, line.shifted);
      vtyvec[fd].node := onode;
    }

    method ExecuteCommand(fd: int, line: Line) returns (code: Code)
      requires Valid() && fd in vtyvec && Legal(line)
      modifies this`vtyConfig, this`holder, vtyvec[fd]
      ensures Valid()
      ensures SeatOf(fd) == AfterLine(old(SeatOf(fd)), old(HeldByOther(fd)), line)
      ensures HeldByOther(fd) == old(HeldByOther(fd))
    {
      var onode := vtyvec[fd].node;
      if AllowsDo(onode) && line.startsWithDo {
        code := ExecuteDo(fd, line);
        return;
      }
      ghost var was, busy := SeatOf(fd), HeldByOther(fd);
      var saved := ExecuteHere(fd, line.At(onode));
      code := saved;
      var tried := false;
      while code.Failed? && Rank(vtyvec[fd].node) > Rank(ConfigNode)
        invariant Valid() && vtyvec == old(vtyvec) && HeldByOther(fd) == busy
        invariant code.Failed? ==> SeatOf(fd) == was.(node := if tried then ConfigNode else onode)
        invariant code.Failed? && tried ==> !Works(line.At(ConfigNode))
        invariant code.Failed? || tried ==> !Works(line.At(onode))
        invariant tried ==> onode == VtyNode
        invariant !code.Failed? ==> SeatOf(fd) == AfterLine(was, busy, line)
        decreases if code.Failed? then Rank(vtyvec[fd].node) else 0
      {
        GoParent(fd);
        code := ExecuteHere(fd, line.At(vtyvec[fd].node));
        tried := true;
      }
      if code.Failed? {
        if tried {
          vtyvec[fd].node := onode;
        }
        code := saved;
      }
    }

    method Auth(fd: int, passes: bool, toEnable: bool)
      requires fd in vtyvec && AsksPassword(vtyvec[fd].node)
      modifies vtyvec[fd]
      ensures vtyvec[fd].config == old(vtyvec[fd].config)
      ensures SeatOf(fd) == AfterPassword(old(SeatOf(fd)), passes, toEnable)
    {
      var vty := vtyvec[fd];
      var next := if vty.node == AuthEnableNode || toEnable then EnableNode else ViewNode;
      if passes {
        vty.fail := 0;
        vty.node := next;
      } else {
        vty.fail := vty.fail + 1;
        if vty.fail >= MAX_FAILS {
          if vty.node == AuthNode {
            vty.closing := true;
          } else {
            vty.fail := 0;
            vty.node := ViewNode;
          }
        }
      }
    }

    method Press(fd: int, key: Key)
      requires Valid() && fd in vtyvec && LegalKeys([key])
      modifies this`vtyConfig, this`holder, vtyvec[fd]
      ensures Valid()
      ensures SeatOf(fd) == AfterKey(old(SeatOf(fd)), old(HeldByOther(fd)), key)
      ensures HeldByOther(fd) == old(HeldByOther(fd))
    {
      match key {
        case Enter(line, passes, toEnable) =>
          if AsksPassword(vtyvec[fd].node) {
            Auth(fd, passes, toEnable);
          } else {
            assert Legal([key][0].line);
            var _ := ExecuteCommand(fd, line);
          }
        case StopInput =>
          EndNode(fd);
        case EndConfig =>
          EndNode(fd);
        case DeleteOnEmptyLine =>
          if !AsksPassword(vtyvec[fd].node) {
            ExitNode(fd);
          }
      }
    }

    /** Closing a terminal gives the lock back. */
    method Close(fd: int)
      requires Valid() && fd in vtyvec
      modifies this, vtyvec[fd]
      ensures Valid()
      ensures vtyvec == old(vtyvec) - {fd}
      ensures holder == if old(holder) == Some(fd) then None else old(holder)
    {
      var _ := ConfigUnlock(fd);
      vtyvec := vtyvec - {fd};
    }

    method PressAll(fd: int, keys: seq<Key>)
      requires Valid() && fd in vtyvec && LegalKeys(keys)
      modifies this`vtyConfig, this`holder, vtyvec[fd]
      ensures Valid() && SeatOf(fd) == AfterKeys(old(SeatOf(fd)), old(HeldByOther(fd)), keys)
    {
      hide Flags, SeatOf, HeldByOther, AfterKey, Legal;
      var i := 0;
      assert keys[..i] == [];
      while i < |keys|
        invariant 0 <= i <= |keys|
        invariant Valid() && vtyvec == old(vtyvec)
        invariant SeatOf(fd) == AfterKeys(old(SeatOf(fd)), old(HeldByOther(fd)), keys[..i])
        invariant HeldByOther(fd) == old(HeldByOther(fd))
      {
        assert keys[..i + 1][..i] == keys[..i];
        Press(fd, keys[i]);
        i := i + 1;
      }
      assert keys[..i] == keys;
    }

    /** The terminals other than `fd` are as they were. */
    twostate lemma OthersKept(fd: int)
      requires old(Flags()) && fd in old(vtyvec)
      requires vtyvec == old(vtyvec) || vtyvec == old(vtyvec) - {fd}
      requires unchanged(old(vtyvec).Values - {old(vtyvec)[fd]})
      ensures Seated() == if fd in vtyvec then old(Seated())[fd := SeatOf(fd)] else old(Seated()) - {fd}
      ensures fd in old(Seated()) && old(Seated())[fd] == old(SeatOf(fd))
    {
      forall f | f in vtyvec && f != fd
        ensures SeatOf(f) == old(SeatOf(f))
      {
        assert vtyvec[f] == old(vtyvec)[f] && vtyvec[f] != old(vtyvec)[fd] && vtyvec[f] in old(vtyvec).Values;
      }
    }

    /** One readiness of a terminal's descriptor: every byte read is acted on, and only then is a
        terminal that asked for it closed. */
    method Read(fd: int, keys: seq<Key>, hangup: bool)
      requires Valid() && fd in vtyvec && LegalKeys(keys)
      modifies this, vtyvec[fd]
      ensures Valid()
      ensures Seated() == AfterAct(old(Seated()), Input(fd, keys, hangup))
      ensures vtyvec == old(vtyvec) || vtyvec == old(vtyvec) - {fd}
    {
      hide Busy, AfterKeys, LegalKeys, HeldByOther, Seated;
      HeldIsBusy(fd);
      if hangup {
        vtyvec[fd].closing := true;
      } else {
        PressAll(fd, keys);
      }
      if vtyvec[fd].closing {
        Close(fd);
      }
      OthersKept(fd);
    }

    twostate lemma Opened(fd: int, new vty: Vty)
      requires old(Valid()) && fd !in old(vtyvec) && fresh(vty) && vtyvec == old(vtyvec)[fd := vty]
      requires holder == old(holder) && vtyConfig == old(vtyConfig) && unchanged(old(vtyvec).Values)
      requires !vty.config && vty.node in {AuthNode, ViewNode, EnableNode}
      ensures Valid() && holder != Some(fd)
      ensures Seated() == old(Seated())[fd := SeatOf(fd)]
    {
      forall f | f in old(vtyvec)
        ensures vtyvec[f] == old(vtyvec[f]) && vtyvec[f] != vty && SeatOf(f) == old(SeatOf(f))
      {
        assert old(vtyvec[f]) in old(vtyvec).Values;
      }
    }

    method CloseRefused(fd: int)
      requires Valid() && fd in vtyvec && holder != Some(fd)
      modifies this, vtyvec[fd]
      ensures Valid() && vtyvec == old(vtyvec) - {fd} && holder == old(holder)
    {
      vtyvec[fd].closing := true;
      Close(fd);
    }

    twostate lemma SameSeats()
      requires vtyvec == old(vtyvec) && unchanged(old(vtyvec).Values)
      ensures Seated() == old(Seated())
    {
      forall f | f in vtyvec
        ensures SeatOf(f) == old(SeatOf(f))
      {
        assert vtyvec[f] in old(vtyvec).Values;
      }
    }

    /** A new connection; it is refused when a password is asked for and none is set. */
    method Create(fd: int, start: Node, refused: bool)
      requires Valid() && fd !in vtyvec && start in {AuthNode, ViewNode, EnableNode}
      modifies this
      ensures Valid()
      ensures Seated() == AfterAct(old(Seated()), Connect(fd, start, refused))
      ensures fresh(vtyvec.Values - old(vtyvec.Values))
      ensures holder == old(holder)
    {
      var vty := new Vty(start);
      vtyvec := vtyvec[fd := vty];
      Opened(fd, vty);
      hide Valid, Flags, SeatOf, Seated;
      if refused {
        CloseRefused(fd);
        SameSeats();
      }
    }

    /** Any run of connections and input: the flags implement the rule, so a terminal is in a
        configuration node exactly when it holds the lock and at most one does. */
    method Run(acts: seq<Act>)
      requires Valid() && forall i :: 0 <= i < |acts| ==> LegalAct(acts[i])
      modifies this, vtyvec.Values
      ensures Valid() && Exclusive(Seated())
      ensures Seated() == AfterAll(old(Seated()), acts)
    {
      var i := 0;
      while i < |acts|
        invariant 0 <= i <= |acts|
        invariant Valid() && fresh(vtyvec.Values - old(vtyvec.Values))
        invariant Seated() == AfterAll(old(Seated()), acts[..i])
      {
        assert acts[..i + 1][..i] == acts[..i];
        match acts[i] {
          case Connect(fd, start, refused) =>
            if fd !in vtyvec {
              Create(fd, start, refused);
            }
          case Input(fd, keys, hangup) =>
            if fd in vtyvec {
              Read(fd, keys, hangup);
            }
        }
        i := i + 1;
      }
      assert acts[..i] == acts;
      HeldIsBusy(0);
    }
  }
}
