/** Walking over the attributes of a Set BTS Attributes request. */
module OmlAttributes {
  import opened Bytes
  import opened OmlMessages
  import opened Sequences

  const BCCH_ARFCN: byte := 0x08
  const BSIC: byte := 0x09
  const BTS_AIR_TIMER: byte := 0x0a
  const CCCH_L_I_P: byte := 0x0b
  const CCCH_L_T: byte := 0x0c
  const CONN_FAIL_CRIT: byte := 0x0e
  const INTAVE_PARAM: byte := 0x18
  const INTERF_BOUND: byte := 0x19
  const MAX_TA: byte := 0x1f
  const NY1: byte := 0x23
  const OVERL_PERIOD: byte := 0x25
  const RACH_B_THRESH: byte := 0x2a
  const LDAVG_SLOTS: byte := 0x2b
  const START_TIME: byte := 0x32
  const T200: byte := 0x33
  const CGI: byte := 0x99

  /** The size of the attributes that always have the same size, or 0. */
  function FixedSize(tag: byte): nat {
    if tag == INTERF_BOUND then 7
    else if tag == T200 then 8
    else if tag == LDAVG_SLOTS || tag == BCCH_ARFCN || tag == START_TIME then 3
    else if tag == CGI then 10
    else if tag == INTAVE_PARAM || tag == MAX_TA || tag == CCCH_L_T || tag == CCCH_L_I_P || tag == RACH_B_THRESH
         || tag == BTS_AIR_TIMER || tag == NY1 || tag == BSIC then 2
    else 0
  }

  predicate HasLength(tag: byte) {
    tag == CONN_FAIL_CRIT || tag == OVERL_PERIOD
  }

  /** An attribute the walk knows, as it is encoded. */
  predicate Known(c: seq<byte>) {
    c != [] &&
    if HasLength(c[0]) then |c| >= 3 && c[1] as int * 256 + c[2] as int == |c| - 3
    else FixedSize(c[0]) != 0 && |c| == FixedSize(c[0])
  }

  /** The attributes by the layout of their fields: a tag and one value, a tag and a number of two bytes,
      a tag and a table of values, or a tag, a length of two bytes and so many values. */
  datatype Attribute =
    | One(tag: byte, value: byte)
    | Two(tag: byte, high: byte, low: byte)
    | Table(tag: byte, values: seq<byte>)
    | Counted(tag: byte, values: seq<byte>)

  predicate LaidOut(a: Attribute) {
    match a
    case One(tag, _) => tag in {0x09, 0x0a, 0x0b, 0x0c, 0x18, 0x1f, 0x23, 0x2a}
    case Two(tag, _, _) => tag in {0x08, 0x2b, 0x32}
    case Table(tag, values) =>
      (tag == 0x19 && |values| == 6) || (tag == 0x33 && |values| == 7) || (tag == 0x99 && |values| == 9)
    case Counted(tag, values) => tag in {0x0e, 0x25} && |values| < 0x10000
  }

  function Encoded(a: Attribute): seq<byte>
    requires LaidOut(a)
  {
    match a
    case One(tag, value) => [tag, value]
    case Two(tag, high, low) => [tag, high, low]
    case Table(tag, values) => [tag] + values
    case Counted(tag, values) => [tag, (|values| / 256) as byte, (|values| % 256) as byte] + values
  }

  /** The walk knows exactly the encoded attributes. */
  lemma KnownExactly(c: seq<byte>)
    ensures Known(c) <==> exists a: Attribute :: LaidOut(a) && c == Encoded(a)
  {
    if Known(c) {
      var a := Decoded(c);
      if a.Counted? { assert c == [c[0], c[1], c[2]] + c[3..]; }
      if a.Table? { assert c == [c[0]] + c[1..]; }
      assert LaidOut(a) && c == Encoded(a);
    }
  }

  ghost function Decoded(c: seq<byte>): Attribute
    requires Known(c)
  {
    if c[0] == 0x0e || c[0] == 0x25 then Counted(c[0], c[3..])
    else if |c| == 2 then One(c[0], c[1])
    else if |c| == 3 then Two(c[0], c[1], c[2])
    else Table(c[0], c[1..])
  }

  predicate AllKnown(chunks: seq<seq<byte>>) {
    forall i :: 0 <= i < |chunks| ==> Known(chunks[i])
  }

  /** Behind a cell identity there are only cell identities. */
  predicate CgiLast(chunks: seq<seq<byte>>)
    requires AllKnown(chunks)
  {
    forall i, j :: 0 <= i < j < |chunks| && chunks[i][0] == CGI ==> chunks[j][0] == CGI
  }

  /** Where each attribute begins, if the first is at `pos`. */
  function Boundaries(chunks: seq<seq<byte>>, pos: nat): seq<nat> {
    if chunks == [] then [] else [pos] + Boundaries(chunks[1..], pos + |chunks[0]|)
  }

  /** The variables of the walk: the place, the 8-bit length that is left, and the tag that decides
      what is done next. */
  datatype Walk = Walk(pos: nat, length: nat, tag: byte)

  /** A byte of the message; places behind it, which no walk below looks at, count as 0. */
  function ByteAt(m: seq<byte>, i: nat): byte {
    if i < |m| then m[i] else 0
  }

  /** The size of an attribute as one round computes it. */
  function TagStep(m: seq<byte>, pos: nat, tag: byte): nat {
    if HasLength(tag) then 3 + ByteAt(m, pos + 2) as int else FixedSize(tag)
  }

  /** One round of the walk over message `m`. */
  function Step(m: seq<byte>, w: Walk): Walk {
    var size := TagStep(m, w.pos, w.tag);
    var pos := w.pos + size;
    Walk(pos, (w.length - size) % 256, if w.tag == CGI || size == 0 then w.tag else ByteAt(m, pos))
  }

  /** The variables after `n` rounds. */
  function Rounds(m: seq<byte>, w: Walk, n: nat): Walk {
    if n == 0 then w else Step(m, Rounds(m, w, n - 1))
  }

  /** The places of the first `n` rounds. */
  function Stops(m: seq<byte>, w: Walk, n: nat): seq<nat> {
    if n == 0 then [] else Stops(m, w, n - 1) + [Rounds(m, w, n - 1).pos]
  }

  /** The attributes behind the first cell identity. */
  function BehindCgi(chunks: seq<seq<byte>>): seq<seq<byte>>
    requires AllKnown(chunks)
  {
    if chunks == [] then [] else if Tag(chunks) == CGI then chunks[1..] else BehindCgi(chunks[1..])
  }

  /** The tag of the first attribute. */
  function Tag(chunks: seq<seq<byte>>): byte
    requires AllKnown(chunks) && chunks != []
  {
    assert Known(chunks[0]);
    chunks[0][0]
  }

  /** How many bytes there are behind the first cell identity. */
  function Tail(chunks: seq<seq<byte>>): nat
    requires AllKnown(chunks)
  {
    |Flatten(BehindCgi(chunks))|
  }

  /** Message `m` holds the attributes `chunks` from position `pos` on, with a byte to spare. */
  ghost predicate Holds(m: seq<byte>, pos: nat, chunks: seq<seq<byte>>) {
    pos + |Flatten(chunks)| + 3 < |m| && m[pos..pos + |Flatten(chunks)|] == Flatten(chunks)
  }

  lemma HoldsFirst(m: seq<byte>, pos: nat, chunks: seq<seq<byte>>)
    requires Holds(m, pos, chunks) && chunks != []
    ensures var n := |chunks[0]|;
      && pos + n <= |m| && m[pos..pos + n] == chunks[0] && Holds(m, pos + n, chunks[1..])
      && |Flatten(chunks)| == n + |Flatten(chunks[1..])|
  {
    var n, f := |chunks[0]|, Flatten(chunks);
    FlattenFirst(chunks);
    assert m[pos..pos + |f|][..n] == m[pos..pos + n];
    assert m[pos..pos + |f|][n..] == m[pos + n..pos + |f|];
  }

  /** At an attribute, one round leads to the next one; but a cell identity leaves the old tag. */
  lemma StepOver(m: seq<byte>, pos: nat, c: seq<byte>, length: nat, left: nat)
    requires Known(c) && length == |c| + left <= 250 && pos + |c| + 2 < |m| && m[pos..pos + |c|] == c
    ensures c != [] && Step(m, Walk(pos, length, c[0])) ==
      Walk(pos + |c|, left, if c[0] == CGI then CGI else m[pos + |c|])
  {
    TagSize(m, pos, c);
    hide Known, FixedSize, HasLength, TagStep;
    assert length - |c| == left && left % 256 == left;
  }

  lemma TagSize(m: seq<byte>, pos: nat, c: seq<byte>)
    requires Known(c) && |c| <= 250 && pos + 2 < |m| && pos + |c| <= |m| && m[pos..pos + |c|] == c
    ensures TagStep(m, pos, c[0]) == |c| && |c| > 0
  {
    if HasLength(c[0]) {
      assert m[pos..pos + |c|][2] == m[pos + 2];
      assert c[1] == 0;
    }
  }

  /** `bts_get_attr`, for a request whose attributes are `chunks`; `stops` are the places at which
      it looks at an attribute. */
  method BtsGetAttr(msg: array<byte>, ghost chunks: seq<seq<byte>>) returns (stops: seq<nat>)
    requires msg.Length > DATA && AllKnown(chunks) && Holds(msg[..], DATA, chunks) && Tail(chunks) % 2 == 0
    requires |Flatten(chunks)| <= 250 && msg[6] as int == 5 + |Flatten(chunks)|
    ensures Ended(msg[..], Walk(DATA, |Flatten(chunks)|, msg[DATA]), stops)
    ensures TensBehind(chunks) ==> stops == Boundaries(chunks, DATA)
  {
    var length: nat := msg[6] as int - 5;
    var patr: nat := DATA;
    if chunks != [] { FirstTag(msg[..], patr, chunks); }
    stops := WalkOver(msg, patr, length, chunks);
    if TensBehind(chunks) {
      StopsAreBoundaries(msg[..], chunks, stops);
    }
  }

  /** The loop, from the first attribute on. */
  method WalkOver(msg: array<byte>, start: nat, all: nat, ghost chunks: seq<seq<byte>>) returns (stops: seq<nat>)
    requires msg.Length > start && AllKnown(chunks) && Tail(chunks) % 2 == 0
    requires all == |Flatten(chunks)| && OnTrack(msg[..], start, chunks, all, msg[start])
    ensures Ended(msg[..], Walk(start, all, msg[start]), stops)
  {
    hide *;
    var patr, length, tag := start, all, msg[start];
    ghost var m := msg[..];
    stops := [];
    ghost var rest, w := chunks, Walk(patr, length, tag);
    ghost var end := StartWalk(m, start, chunks);
    while length != 0
      invariant tag == CGI || OnTrack(m, patr, rest, length, tag)
      invariant |stops| <= end && Walk(patr, length, tag) == Rounds(m, w, |stops|) && Underway(m, w, stops)
      decreases end - |stops|
    {
      if tag != CGI {
        WalkOn(m, patr, rest, length, tag);
        rest := rest[1..];
      }
      CgiStays(m, Walk(patr, length, tag));
      RoundsNext(m, w, stops, end);
      stops := stops + [patr];
      patr, length, tag := PassOver(msg, patr, length, tag);
    }
    EndedIs(m, w, stops);
  }

  lemma StartWalk(m: seq<byte>, pos: nat, chunks: seq<seq<byte>>) returns (end: nat)
    requires |m| > pos && AllKnown(chunks) && OnTrack(m, pos, chunks, |Flatten(chunks)|, m[pos]) &&
      Tail(chunks) % 2 == 0
    ensures var w := Walk(pos, |Flatten(chunks)|, m[pos]);
      Rounds(m, w, end).length == 0 && Rounds(m, w, 0) == w && Underway(m, w, [])
  {
    WalkEnds(m, pos, chunks, m[pos]);
    end :| Rounds(m, Walk(pos, |Flatten(chunks)|, m[pos]), end).length == 0;
  }

  lemma StopsAreBoundaries(m: seq<byte>, chunks: seq<seq<byte>>, stops: seq<nat>)
    requires |m| > DATA && AllKnown(chunks) && Holds(m, DATA, chunks) && |Flatten(chunks)| <= 250 && TensBehind(chunks)
    requires Ended(m, Walk(DATA, |Flatten(chunks)|, m[DATA]), stops)
    ensures stops == Boundaries(chunks, DATA)
  {
    hide Step, Rounds, Flatten, Boundaries, Stops, StopsAt, BehindCgi;
    if chunks != [] { FirstTag(m, DATA, chunks); }
    WalkStops(m, DATA, chunks, m[DATA]);
    StopsAre(m, Walk(DATA, |Flatten(chunks)|, m[DATA]), chunks, |stops|);
  }

  lemma CgiStays(m: seq<byte>, w: Walk)
    ensures FixedSize(CGI) == 10 && !HasLength(CGI) && (w.tag == CGI ==> Step(m, w).tag == CGI)
  {
  }

  /** `stops` are the places of the first rounds, in none of which the length was used up. */
  ghost predicate Underway(m: seq<byte>, w: Walk, stops: seq<nat>) {
    stops == Stops(m, w, |stops|) && forall k :: 0 <= k < |stops| ==> Rounds(m, w, k).length != 0
  }

  /** `stops` are the places of all rounds: then the length is used up. */
  ghost predicate Ended(m: seq<byte>, w: Walk, stops: seq<nat>) {
    Underway(m, w, stops) && Rounds(m, w, |stops|).length == 0
  }

  lemma EndedIs(m: seq<byte>, w: Walk, stops: seq<nat>)
    requires Underway(m, w, stops) && Rounds(m, w, |stops|).length == 0
    ensures Ended(m, w, stops)
  {
  }

  lemma RoundsNext(m: seq<byte>, w: Walk, stops: seq<nat>, end: nat)
    requires Underway(m, w, stops) && Rounds(m, w, |stops|).length != 0 && |stops| <= end &&
      Rounds(m, w, end).length == 0
    ensures Rounds(m, w, |stops| + 1) == Step(m, Rounds(m, w, |stops|)) && |stops| < end
    ensures Underway(m, w, stops + [Rounds(m, w, |stops|).pos])
  {
    hide Step;
  }

  /** The walk is at the first attribute of `rest`, with their length left. */
  ghost predicate OnTrack(m: seq<byte>, pos: nat, rest: seq<seq<byte>>, length: nat, tag: byte) {
    && AllKnown(rest) && Holds(m, pos, rest) && length == |Flatten(rest)| <= 250
    && (rest != [] ==> tag == Tag(rest))
  }

  /** From an attribute other than a cell identity a round leads to the next attribute. */
  lemma WalkOn(m: seq<byte>, pos: nat, rest: seq<seq<byte>>, length: nat, tag: byte)
    requires OnTrack(m, pos, rest, length, tag) && length != 0
    ensures rest != [] && pos + 2 < |m| && (HasLength(tag) || FixedSize(tag) != 0)
    ensures var w := Step(m, Walk(pos, length, tag));
      && w.pos < |m| && w.pos == pos + |rest[0]| && w.length == |Flatten(rest[1..])| < length
      && (tag == CGI ==> w.tag == CGI) && (tag != CGI ==> OnTrack(m, w.pos, rest[1..], w.length, w.tag))
      && AllKnown(rest[1..])
  {
    NothingLeft(rest);
    HoldsFirst(m, pos, rest);
    KnownNow(rest);
    HoldsInside(m, pos + |rest[0]|, rest[1..]);
    StepOver(m, pos, rest[0], length, |Flatten(rest[1..])|);
    var w := Step(m, Walk(pos, length, tag));
    hide Step, Flatten, Holds, FixedSize;
    if rest[1..] != [] {
      FirstTag(m, w.pos, rest[1..]);
    }
  }

  /** The switch of the loop. */
  method PassOver(msg: array<byte>, patr0: nat, length0: nat, tag0: byte) returns (patr: nat, length: nat, tag: byte)
    requires HasLength(tag0) || FixedSize(tag0) != 0
    requires tag0 != CGI ==> patr0 + 2 < msg.Length && Step(msg[..], Walk(patr0, length0, tag0)).pos < msg.Length
    ensures Walk(patr, length, tag) == Step(msg[..], Walk(patr0, length0, tag0))
  {
    patr, length, tag := patr0, length0, tag0;
    if tag == CONN_FAIL_CRIT || tag == OVERL_PERIOD {
      var attributeLength := msg[patr + 2] as int;
      length := (length - (3 + attributeLength)) % 256;
      patr := patr + 3 + attributeLength;
      tag := msg[patr];
    } else if tag == CGI {
      patr := patr + 10;
      length := (length - 10) % 256;
    } else {
      var size := FixedSize(tag);
      length := (length - size) % 256;
      patr := patr + size;
      tag := msg[patr];
    }
  }

  lemma KnownNow(chunks: seq<seq<byte>>)
    requires chunks != [] && AllKnown(chunks)
    ensures chunks[0] != [] && Known(chunks[0]) && (HasLength(chunks[0][0]) || FixedSize(chunks[0][0]) != 0)
  {
    assert Known(chunks[0]);
  }

  lemma HoldsInside(m: seq<byte>, pos: nat, chunks: seq<seq<byte>>)
    requires Holds(m, pos, chunks)
    ensures pos + 2 < |m|
  {
  }

  lemma FirstTag(m: seq<byte>, pos: nat, chunks: seq<seq<byte>>)
    requires AllKnown(chunks) && Holds(m, pos, chunks) && chunks != []
    ensures m[pos] == chunks[0][0]
  {
    HoldsFirst(m, pos, chunks);
    assert Known(chunks[0]) && m[pos] == m[pos..pos + |chunks[0]|][0];
  }

  lemma NothingLeft(chunks: seq<seq<byte>>)
    requires AllKnown(chunks)
    ensures |Flatten(chunks)| == 0 <==> chunks == []
  {
    if chunks != [] {
      FlattenFirst(chunks);
      assert Known(chunks[0]);
    }
  }

  /** With the tag of a cell identity every round passes over ten bytes, whatever they are. */
  lemma {:induction false} CgiRounds(m: seq<byte>, w: Walk, n: nat)
    requires w.tag == CGI && w.length < 256
    ensures Rounds(m, w, n) == Walk(w.pos + 10 * n, (w.length - 10 * n) % 256, CGI)
  {
    if n > 0 {
      CgiRounds(m, w, n - 1);
      WrapTen(w.length - 10 * (n - 1));
    }
  }

  lemma WrapTen(x: int)
    ensures (x % 256 - 10) % 256 == (x - 10) % 256
  {
  }

  lemma {:induction false} RoundsAdd(m: seq<byte>, w: Walk, a: nat, b: nat)
    ensures Rounds(m, w, a + b) == Rounds(m, Rounds(m, w, a), b)
  {
    hide Step;
    if b > 0 { RoundsAdd(m, w, a, b - 1); }
  }

  lemma RoundsFrom(m: seq<byte>, w: Walk, n: nat)
    requires n > 0
    ensures Rounds(m, w, n) == Rounds(m, Step(m, w), n - 1)
  {
    RoundsAdd(m, w, 1, n - 1);
    assert Rounds(m, w, 0) == w && Rounds(m, w, 1) == Step(m, w);
  }

  /** One round of that walk. */
  lemma CgiStep(m: seq<byte>, pos: nat, chunks: seq<seq<byte>>, tag: byte)
    requires chunks != [] && OnTrack(m, pos, chunks, |Flatten(chunks)|, tag)
    ensures var w, rest := Walk(pos, |Flatten(chunks)|, tag), chunks[1..]; var v := Step(m, w);
      && w.length != 0 && Rounds(m, w, 0) == w && Rounds(m, w, 1) == v && AllKnown(rest)
      && v.length == |Flatten(rest)| <= w.length && v.pos + v.length == pos + w.length
      && Tail(chunks) == (if tag == CGI then |Flatten(rest)| else Tail(rest))
      && if tag == CGI then v.tag == CGI else OnTrack(m, v.pos, rest, v.length, v.tag)
  {
    NothingLeft(chunks);
    FlattenFirst(chunks);
    var w := Walk(pos, |Flatten(chunks)|, tag);
    assert Rounds(m, w, 0) == w && tag == Tag(chunks);
    assert BehindCgi(chunks) == if tag == CGI then chunks[1..] else BehindCgi(chunks[1..]);
    hide Step, Flatten, Holds, BehindCgi;
    WalkOn(m, pos, chunks, w.length, tag);
  }

  /** After `n` rounds, and not before all bytes are used up, the walk has come behind the first cell
      identity: `tail` bytes are left up to `end`. */
  ghost predicate Behind(m: seq<byte>, w: Walk, n: nat, end: nat, tail: nat) {
    && (forall k :: 0 <= k < n ==> Rounds(m, w, k).length != 0)
    && var u := Rounds(m, w, n); u.pos + tail == end && u.length == tail && (tail != 0 ==> u.tag == CGI)
  }

  lemma BehindLater(m: seq<byte>, w: Walk, k: nat, end: nat, tail: nat)
    requires w.length != 0 && Behind(m, Step(m, w), k, end, tail)
    ensures Behind(m, w, k + 1, end, tail)
  {
    hide Step, Rounds;
    RoundsLater(m, w, k);
  }

  /** Round by round the walk gets behind the first cell identity, or to the end of the attributes. */
  lemma {:induction false} ToCgi(m: seq<byte>, pos: nat, chunks: seq<seq<byte>>, tag: byte) returns (n: nat)
    requires AllKnown(chunks) && OnTrack(m, pos, chunks, |Flatten(chunks)|, tag)
    ensures Tail(chunks) <= |Flatten(chunks)|
    ensures Behind(m, Walk(pos, |Flatten(chunks)|, tag), n, pos + |Flatten(chunks)|, Tail(chunks))
    decreases |chunks|
  {
    if chunks == [] {
      n := 0;
      return;
    }
    CgiStep(m, pos, chunks, tag);
    hide *;
    var w := Walk(pos, |Flatten(chunks)|, tag);
    var v := Step(m, w);
    if tag == CGI {
      n := 0;
      BehindHere(m, v, Tail(chunks));
    } else {
      n := ToCgi(m, v.pos, chunks[1..], v.tag);
      assert v == Walk(v.pos, |Flatten(chunks[1..])|, v.tag);
    }
    BehindLater(m, w, n, pos + |Flatten(chunks)|, Tail(chunks));
    n := n + 1;
  }

  lemma BehindHere(m: seq<byte>, w: Walk, tail: nat)
    requires w.length == tail && w.tag == CGI
    ensures Behind(m, w, 0, w.pos + tail, tail)
  {
  }

  lemma RoundsLater(m: seq<byte>, w: Walk, k: nat)
    requires w.length != 0 && forall i :: 0 <= i < k ==> Rounds(m, Step(m, w), i).length != 0
    ensures Rounds(m, w, k + 1) == Rounds(m, Step(m, w), k)
    ensures forall i :: 0 <= i < k + 1 ==> Rounds(m, w, i).length != 0
  {
    RoundsFrom(m, w, k + 1);
    assert Rounds(m, w, 0) == w;
    hide Step, Rounds;
    forall i | 0 <= i < k + 1
      ensures Rounds(m, w, i).length != 0
    {
      if i > 0 { RoundsFrom(m, w, i); }
    }
  }

  /** The walk comes to an end exactly if the number of bytes behind the first cell identity is even:
      in steps of ten the 8-bit length gets past an odd number for ever. */
  lemma WalkEnds(m: seq<byte>, pos: nat, chunks: seq<seq<byte>>, tag: byte)
    requires AllKnown(chunks) && OnTrack(m, pos, chunks, |Flatten(chunks)|, tag)
    ensures (exists n: nat :: Rounds(m, Walk(pos, |Flatten(chunks)|, tag), n).length == 0) <==> Tail(chunks) % 2 == 0
  {
    hide Step, Rounds, Flatten, Holds, BehindCgi, Tail, Behind;
    var w, r := Walk(pos, |Flatten(chunks)|, tag), Tail(chunks);
    var n := ToCgi(m, pos, chunks, tag);
    RoundsBehind(m, w, n, pos + |Flatten(chunks)|, r, n);
    if r % 2 == 0 {
      var k := EvenEnds(r);
      RoundsBehind(m, w, n, pos + |Flatten(chunks)|, r, n + k);
      assert r == 0 ==> Rounds(m, w, n).length == 0;
      assert r != 0 ==> Rounds(m, w, n + k).length == 0;
    } else {
      forall i: nat
        ensures Rounds(m, w, i).length != 0
      {
        RoundsBehind(m, w, n, pos + |Flatten(chunks)|, r, i);
        if i >= n { OddStays(r, i - n); }
      }
    }
  }

  lemma RoundsBehind(m: seq<byte>, w: Walk, n: nat, end: nat, r: nat, i: nat)
    requires Behind(m, w, n, end, r) && r < 256
    ensures Rounds(m, w, i).length == 0 ==> i >= n
    ensures i >= n && r != 0 ==> Rounds(m, w, i).length == (r - 10 * (i - n)) % 256
    ensures i >= n && r != 0 ==> Rounds(m, w, i).pos == end - r + 10 * (i - n)
    ensures i == n ==> Rounds(m, w, i).length == r && Rounds(m, w, i).pos == end - r
  {
    hide Step, Rounds;
    if i >= n && r != 0 {
      CgiRounds(m, Rounds(m, w, n), i - n);
      RoundsAdd(m, w, n, i - n);
    }
  }

  lemma EvenEnds(r: nat) returns (k: nat)
    requires r % 2 == 0
    ensures (r - 10 * k) % 256 == 0
  {
    var h: nat := r / 2;
    k := 77 * h;
    assert r - 10 * k == 256 * (-3 * h);
    Multiple(-3 * h);
  }

  lemma Multiple(q: int)
    ensures (256 * q) % 256 == 0
  {
  }

  lemma OddStays(r: nat, k: nat)
    requires r % 2 == 1
    ensures (r - 10 * k) % 256 != 0
  {
  }

  /** It ends where the attributes end exactly if those behind the first cell identity take a
      multiple of ten bytes. */
  lemma WalkEndsAtEnd(m: seq<byte>, pos: nat, chunks: seq<seq<byte>>, tag: byte)
    requires AllKnown(chunks) && OnTrack(m, pos, chunks, |Flatten(chunks)|, tag)
    ensures var w := Walk(pos, |Flatten(chunks)|, tag);
      (exists n: nat :: Rounds(m, w, n).length == 0 && Rounds(m, w, n).pos == pos + |Flatten(chunks)|) <==>
        Tail(chunks) % 10 == 0
  {
    hide Step, Rounds, Flatten, Holds, BehindCgi, Tail, Behind;
    var w, r, end := Walk(pos, |Flatten(chunks)|, tag), Tail(chunks), pos + |Flatten(chunks)|;
    var n := ToCgi(m, pos, chunks, tag);
    if r % 10 == 0 {
      var i := n + r / 10;
      RoundsBehind(m, w, n, end, r, i);
      assert Rounds(m, w, i).length == 0 && Rounds(m, w, i).pos == end;
    } else if i: nat :| Rounds(m, w, i).length == 0 && Rounds(m, w, i).pos == end {
      RoundsBehind(m, w, n, end, r, i);
    }
  }

  /** Every attribute behind a cell identity takes ten bytes. */
  predicate TensBehind(chunks: seq<seq<byte>>)
    requires AllKnown(chunks)
  {
    forall i :: 0 <= i < |BehindCgi(chunks)| ==> |BehindCgi(chunks)[i]| == 10
  }

  /** The walk stops once at each attribute of `chunks`, in order, and then ends. */
  ghost predicate StopsAt(m: seq<byte>, w: Walk, chunks: seq<seq<byte>>)
    decreases |chunks|
  {
    if chunks == [] then w.length == 0
    else w.length != 0 && Step(m, w).pos == w.pos + |chunks[0]| && StopsAt(m, Step(m, w), chunks[1..])
  }

  /** It does exactly if every attribute behind the first cell identity takes ten bytes. */
  lemma {:induction false} WalkStops(m: seq<byte>, pos: nat, chunks: seq<seq<byte>>, tag: byte)
    requires AllKnown(chunks) && OnTrack(m, pos, chunks, |Flatten(chunks)|, tag)
    ensures StopsAt(m, Walk(pos, |Flatten(chunks)|, tag), chunks) <==> TensBehind(chunks)
    decreases |chunks|
  {
    if chunks != [] {
      NothingLeft(chunks);
      WalkOn(m, pos, chunks, |Flatten(chunks)|, tag);
      var w := Step(m, Walk(pos, |Flatten(chunks)|, tag));
      assert BehindCgi(chunks) == if tag == CGI then chunks[1..] else BehindCgi(chunks[1..]);
      assert StopsAt(m, Walk(pos, |Flatten(chunks)|, tag), chunks) <==> StopsAt(m, w, chunks[1..]);
      hide StopsAt, BehindCgi, Step, Holds, Flatten;
      if tag == CGI {
        TensStop(m, w, chunks[1..]);
      } else {
        WalkStops(m, w.pos, chunks[1..], w.tag);
        assert w == Walk(w.pos, |Flatten(chunks[1..])|, w.tag);
      }
    }
  }

  lemma {:induction false} TensStop(m: seq<byte>, w: Walk, chunks: seq<seq<byte>>)
    requires AllKnown(chunks) && w.tag == CGI && w.length == |Flatten(chunks)| < 256
    ensures StopsAt(m, w, chunks) <==> forall i :: 0 <= i < |chunks| ==> |chunks[i]| == 10
    decreases |chunks|
  {
    if chunks != [] {
      NothingLeft(chunks);
      FlattenFirst(chunks);
      if |chunks[0]| == 10 {
        TensStop(m, Step(m, w), chunks[1..]);
        assert forall i :: 0 < i < |chunks| ==> chunks[i] == chunks[1..][i - 1];
      }
    }
  }

  /** The walk has just these `n` rounds. */
  ghost predicate Lasts(m: seq<byte>, w: Walk, n: nat) {
    Rounds(m, w, n).length == 0 && forall k :: 0 <= k < n ==> Rounds(m, w, k).length != 0
  }

  lemma LastsTail(m: seq<byte>, w: Walk, n: nat)
    requires Lasts(m, w, n)
    ensures w.length == 0 ==> n == 0
    ensures w.length != 0 ==> n > 0 && Lasts(m, Step(m, w), n - 1)
  {
    assert Rounds(m, w, 0) == w;
    hide Step;
    if n > 0 {
      forall k | 0 <= k <= n - 1
        ensures Rounds(m, Step(m, w), k) == Rounds(m, w, k + 1)
      {
        RoundsFrom(m, w, k + 1);
      }
    }
  }

  /** The places of a walk that stops at each attribute are their boundaries. */
  lemma {:induction false} StopsAre(m: seq<byte>, w: Walk, chunks: seq<seq<byte>>, n: nat)
    requires StopsAt(m, w, chunks) && Lasts(m, w, n)
    ensures Stops(m, w, n) == Boundaries(chunks, w.pos)
    decreases |chunks|
  {
    hide Step, Rounds, Lasts;
    LastsTail(m, w, n);
    if chunks != [] {
      StopsTail(m, w, n);
      StopsAre(m, Step(m, w), chunks[1..], n - 1);
    }
  }

  lemma {:induction false} StopsTail(m: seq<byte>, w: Walk, n: nat)
    requires n > 0
    ensures Stops(m, w, n) == [w.pos] + Stops(m, Step(m, w), n - 1)
  {
    hide Step;
    assert Rounds(m, w, 0) == w && Rounds(m, w, 1) == Step(m, w);
    if n > 1 {
      StopsTail(m, w, n - 1);
      RoundsAdd(m, w, 1, n - 2);
    }
  }

  /** A cell identity. */
  const CELL: seq<byte> := [CGI, 0, 0, 0, 0, 0, 0, 0, 0, 0]

  lemma CellThen(c: seq<byte>)
    requires Known(c)
    ensures AllKnown([CELL, c]) && Tag([CELL, c]) == CGI && BehindCgi([CELL, c]) == [c]
    ensures Flatten([c]) == c && |Flatten([CELL, c])| == 10 + |c| && Tail([CELL, c]) == |c|
  {
    var chunks := [CELL, c];
    assert Known(CELL) && chunks[1..] == [c] && [c][1..] == [];
    assert Flatten<byte>([]) == [] && c + [] == c;
    assert Flatten([c]) == [c][0] + Flatten([c][1..]);
    FlattenFirst(chunks);
  }

  /** A cell identity and then a base station identity code: in the second round the 8-bit length
      wraps from 2 to 248, and the walk ends 768 bytes behind the attributes. */
  lemma MisreadBsic(m: seq<byte>, code: byte)
    requires Holds(m, DATA, [CELL, [BSIC, code]])
    ensures AllKnown([CELL, [BSIC, code]])
    ensures var w := Walk(DATA, 12, CGI);
      && Rounds(m, w, 2) == Walk(DATA + 20, 248, CGI) && Rounds(m, w, 78) == Walk(DATA + 780, 0, CGI)
      && forall n :: 0 <= n < 78 ==> Rounds(m, w, n).length != 0
  {
    CellThen([BSIC, code]);
    var w := Walk(DATA, 12, CGI);
    CgiRounds(m, w, 2);
    CgiRounds(m, w, 78);
    forall n | 0 <= n < 78
      ensures Rounds(m, w, n).length != 0
    {
      CgiRounds(m, w, n);
      TwelveLess(n);
    }
  }

  lemma TwelveLess(n: nat)
    requires n < 78
    ensures (12 - 10 * n) % 256 != 0
  {
    var q := (12 - 10 * n) / 256;
    assert -3 <= q <= 0;
  }

  /** A cell identity and then a frequency number, which takes three bytes: the walk never ends. */
  lemma MisreadFrequency(m: seq<byte>, high: byte, low: byte)
    requires Holds(m, DATA, [CELL, [BCCH_ARFCN, high, low]])
    ensures AllKnown([CELL, [BCCH_ARFCN, high, low]])
    ensures forall n: nat :: Rounds(m, Walk(DATA, 13, CGI), n).length != 0
  {
    CellThen([BCCH_ARFCN, high, low]);
    WalkEnds(m, DATA, [CELL, [BCCH_ARFCN, high, low]], CGI);
  }

  /** The walk from an attribute on finds every attribute behind it: after each round it is at the
      next one, with the length that is left and the right tag. */
  ghost predicate Finds(m: seq<byte>, w: Walk, chunks: seq<seq<byte>>)
    decreases |chunks|
  {
    if chunks == [] then w.length == 0
    else
      && chunks[0] != [] && w.tag == chunks[0][0] && w.length == |Flatten(chunks)|
      && Step(m, w).pos == w.pos + |chunks[0]| && Finds(m, Step(m, w), chunks[1..])
  }

  /** Exactly the requests in which nothing but cell identities follows a cell identity are walked
      as they were encoded. */
  lemma {:induction false} WalkIsExact(m: seq<byte>, pos: nat, chunks: seq<seq<byte>>, tag: byte)
    requires AllKnown(chunks) && Holds(m, pos, chunks) && |Flatten(chunks)| <= 250
    requires chunks != [] ==> tag == chunks[0][0]
    ensures Finds(m, Walk(pos, |Flatten(chunks)|, tag), chunks) <==> CgiLast(chunks)
    decreases |chunks|
  {
    if chunks != [] {
      assert Known(chunks[0]);
      HoldsFirst(m, pos, chunks);
      HoldsInside(m, pos + |chunks[0]|, chunks[1..]);
      StepOver(m, pos, chunks[0], |Flatten(chunks)|, |Flatten(chunks[1..])|);
      var w := Step(m, Walk(pos, |Flatten(chunks)|, tag));
      var rest := chunks[1..];
      if rest == [] {
      } else if chunks[0][0] == CGI && rest[0][0] != CGI {
        assert chunks[1][0] != CGI;
      } else {
        FirstTag(m, w.pos, rest);
        WalkIsExact(m, w.pos, rest, w.tag);
        CgiLastMore(chunks);
      }
    }
  }

  lemma CgiLastMore(chunks: seq<seq<byte>>)
    requires |chunks| > 1 && AllKnown(chunks) && (chunks[0][0] == CGI ==> chunks[1][0] == CGI)
    ensures AllKnown(chunks[1..]) && (CgiLast(chunks) <==> CgiLast(chunks[1..]))
  {
    var rest := chunks[1..];
    if CgiLast(rest) {
      forall i, j | 0 <= i < j < |chunks| && chunks[i][0] == CGI
        ensures chunks[j][0] == CGI
      {
        assert j > 1 ==> rest[0] == chunks[1] && rest[j - 1] == chunks[j];
        assert i > 0 ==> rest[i - 1] == chunks[i];
      }
    }
    if CgiLast(chunks) {
      forall i, j | 0 <= i < j < |rest| && rest[i][0] == CGI
        ensures rest[j][0] == CGI
      {
        assert rest[i] == chunks[i + 1] && rest[j] == chunks[j + 1];
      }
    }
  }
}
