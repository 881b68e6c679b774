/** The telnet part of reading from a terminal: commands, subnegotiations and the window size. */
module Telnet {
  import opened Bytes
  import opened Sequences

  const IAC: byte := 255
  const SB: byte := 250
  const SE: byte := 240
  const NAWS: byte := 31
  const NAWS_SB_LEN := 5

  /** What survives from one read to the next. `plain` collects the bytes left for the editor. */
  datatype State = State(iac: bool, sb: bool, sbBuf: seq<byte>, sbLen: nat, width: nat, height: nat, plain: seq<byte>)

  predicate StateOk(t: State) {
    |t.sbBuf| == NAWS_SB_LEN
  }

  /** A telnet command, and how many of the bytes read with it belong to it as well. */
  function Option(t: State, b: byte): (r: (State, nat))
    requires StateOk(t)
    ensures StateOk(r.0) && r.1 <= 1 && r.0.plain == t.plain && r.0.iac == t.iac
  {
    if b == SB then (t.(sb := true, sbLen := 0), 0)
    else if b == SE then
      if !t.sb then (t, 0)
      else if t.sbLen == 0 || t.sbBuf[0] == 0 then (t.(sb := false), 0)
      else if t.sbBuf[0] == NAWS && t.sbLen == NAWS_SB_LEN then
        (t.(sb := false, width := Word(t.sbBuf[1], t.sbBuf[2]), height := Word(t.sbBuf[3], t.sbBuf[4])), 0)
      else (t.(sb := false), 0)
    else (t, 1)
  }

  function Word(high: byte, low: byte): nat {
    high as nat * 256 + low as nat
  }

  function Stored(t: State, b: byte): (r: State)
    requires StateOk(t)
    ensures StateOk(r)
  {
    t.(sbBuf := if t.sbLen < NAWS_SB_LEN then t.sbBuf[t.sbLen := b] else t.sbBuf, sbLen := t.sbLen + 1)
  }

  /** One byte, and how many bytes after it are skipped if they came with the same read. */
  function Byte(t: State, b: byte): (r: (State, nat))
    requires StateOk(t)
    ensures StateOk(r.0) && r.1 <= 1
  {
    if b == IAC && !t.iac then (t.(iac := true), 0)
    else if t.iac && b != IAC then
      var (u, skip) := Option(t, b);
      (u.(iac := false), skip)
    else
      var u := t.(iac := false);
      if u.sb then (Stored(u, b), 0) else (u.(plain := u.plain + [b]), 0)
  }

  /** The bytes of one read. */
  function Feed(t: State, bytes: seq<byte>): (r: State)
    requires StateOk(t)
    ensures StateOk(r)
    decreases |bytes|
  {
    if bytes == [] then t
    else
      var (u, skip) := Byte(t, bytes[0]);
      if 1 + skip <= |bytes| then Feed(u, bytes[1 + skip..]) else u
  }

  function FeedAll(t: State, chunks: seq<seq<byte>>): (r: State)
    requires StateOk(t)
    ensures StateOk(r)
    decreases |chunks|
  {
    if chunks == [] then t else FeedAll(Feed(t, chunks[0]), chunks[1..])
  }

  class Decoder {
    var iac: bool
    var sbInProgress: bool
    const sbBuf: array<byte>
    var sbLen: nat
    var width: nat
    var height: nat
    var plain: seq<byte>

    ghost predicate Valid() {
      sbBuf.Length == NAWS_SB_LEN
    }

    ghost function View(): (t: State)
      reads this, sbBuf
      requires Valid()
      ensures StateOk(t)
    {
      State(iac, sbInProgress, sbBuf[..], sbLen, width, height, plain)
    }

    constructor ()
      ensures Valid() && fresh(sbBuf) && !iac && !sbInProgress && plain == []
    {
      iac, sbInProgress := false, false;
      sbBuf := new byte[NAWS_SB_LEN](_ => 0);
      sbLen, width, height := 0, 0, 0;
      plain := [];
    }

    /** `vty_telnet_option`. */
    method TelnetOption(b: byte) returns (skip: nat)
      requires Valid()
      modifies this
      ensures (View(), skip) == Option(old(View()), b)
    {
      if b == SB {
        sbLen := 0;
        sbInProgress := true;
        return 0;
      }
      if b == SE {
        if !sbInProgress { return 0; }
        if sbLen == 0 || sbBuf[0] == 0 {
          sbInProgress := false;
          return 0;
        }
        if sbBuf[0] == NAWS {
          if sbLen == NAWS_SB_LEN {
            width := sbBuf[1] as nat * 256 + sbBuf[2] as nat;
            height := sbBuf[3] as nat * 256 + sbBuf[4] as nat;
          }
        }
        sbInProgress := false;
        return 0;
      }
      return 1;
    }

    /** One round of the loop of `vty_read`, up to the line editor; `skip` more bytes are passed over. */
    method Take(b: byte) returns (skip: nat)
      requires Valid()
      modifies this, sbBuf
      ensures (View(), skip) == Byte(old(View()), b)
    {
      hide Option;
      if b == IAC {
        if !iac {
          iac := true;
          return 0;
        } else {
          iac := false;
        }
      }
      if sbInProgress && !iac {
        if sbLen < NAWS_SB_LEN {
          sbBuf[sbLen] := b;
        }
        sbLen := sbLen + 1;
        return 0;
      }
      if iac {
        skip := TelnetOption(b);
        iac := false;
        return;
      }
      plain := plain + [b];
      skip := 0;
    }

    /** The loop of `vty_read` up to the line editor. */
    method Read(bytes: seq<byte>)
      requires Valid()
      modifies this, sbBuf
      ensures View() == Feed(old(View()), bytes)
    {
      hide Option, Byte;
      var i := 0;
      while i < |bytes|
        invariant 0 <= i
        invariant i <= |bytes| ==> Feed(old(View()), bytes) == Feed(View(), bytes[i..])
        invariant i > |bytes| ==> View() == Feed(old(View()), bytes)
        decreases |bytes| - i
      {
        assert bytes[i..][1..] == bytes[i + 1..];
        assert i + 2 <= |bytes| ==> bytes[i..][2..] == bytes[i + 2..];
        var skip := Take(bytes[i]);
        i := i + 1 + skip;
      }
    }

    /** Any number of reads. */
    method ReadAll(chunks: seq<seq<byte>>)
      requires Valid()
      modifies this, sbBuf
      ensures View() == FeedAll(old(View()), chunks)
    {
      for i := 0 to |chunks|
        invariant FeedAll(View(), chunks[i..]) == FeedAll(old(View()), chunks)
      {
        assert chunks[i..][0] == chunks[i] && chunks[i..][1..] == chunks[i + 1..];
        Read(chunks[i]);
      }
    }
  }

  /** The last byte of `bytes` is a command that takes the byte after it along. */
  predicate Waiting(t: State, bytes: seq<byte>)
    requires StateOk(t)
    decreases |bytes|
  {
    bytes != [] &&
    var (u, skip) := Byte(t, bytes[0]);
    if 1 + skip <= |bytes| then Waiting(u, bytes[1 + skip..]) else true
  }

  /** Where a stream is cut into reads makes no difference, unless a read ends between a command
      and the byte that belongs to it. */
  lemma {:induction false} SplitRead(t: State, a: seq<byte>, b: seq<byte>)
    requires StateOk(t) && !Waiting(t, a)
    ensures Feed(t, a + b) == Feed(Feed(t, a), b)
    decreases |a|
  {
    if a == [] {
      assert a + b == b;
    } else {
      var (u, skip) := Byte(t, a[0]);
      assert (a + b)[0] == a[0];
      assert (a + b)[1 + skip..] == a[1 + skip..] + b;
      SplitRead(u, a[1 + skip..], b);
    }
  }

  /** A byte that a waiting command takes along is skipped. */
  lemma {:induction false} WaitingSkips(t: State, a: seq<byte>, b: byte)
    requires StateOk(t) && Waiting(t, a)
    ensures Feed(t, a + [b]) == Feed(t, a) && !Feed(t, a).iac
    decreases |a|
  {
    var (u, skip) := Byte(t, a[0]);
    assert (a + [b])[0] == a[0];
    if 1 + skip <= |a| {
      assert (a + [b])[1 + skip..] == a[1 + skip..] + [b];
      WaitingSkips(u, a[1 + skip..], b);
    } else {
      assert (a + [b])[2..] == [];
    }
  }

  /** If a read ends between a command and its option, the option is not skipped but acted on: it
      starts a command, is stored in the subnegotiation, or is taken for a typed byte. */
  lemma WaitingRead(t: State, a: seq<byte>, b: byte)
    requires StateOk(t) && Waiting(t, a)
    ensures var u := Feed(t, a);
      && FeedAll(t, [a + [b]]) == u
      && FeedAll(t, [a, [b]]) ==
        (if b == IAC then u.(iac := true) else if u.sb then Stored(u, b) else u.(plain := u.plain + [b]))
      && FeedAll(t, [a, [b]]) != u
  {
    WaitingSkips(t, a, b);
    var u := Feed(t, a);
    FeedOne(u, b);
    OneRead(t, a + [b]);
    TwoReads(t, a, [b]);
    assert u.(iac := false) == u && u.plain != u.plain + [b];
  }

  /** A read may end behind `a` without making a difference to anything that follows exactly if no
      command is waiting for its option there. */
  lemma SplitExact(t: State, a: seq<byte>)
    requires StateOk(t)
    ensures (forall b: seq<byte> :: Feed(t, a + b) == Feed(Feed(t, a), b)) <==> !Waiting(t, a)
  {
    if Waiting(t, a) {
      WaitingSkips(t, a, 0);
      FeedOne(Feed(t, a), 0);
      assert Feed(t, a + [0]) != Feed(Feed(t, a), [0]);
    } else {
      forall b: seq<byte>
        ensures Feed(t, a + b) == Feed(Feed(t, a), b)
      {
        SplitRead(t, a, b);
      }
    }
  }

  lemma OneRead(t: State, a: seq<byte>)
    requires StateOk(t)
    ensures FeedAll(t, [a]) == Feed(t, a)
  {
    var chunks := [a];
    assert chunks[0] == a && chunks[1..] == [];
  }

  lemma TwoReads(t: State, a: seq<byte>, b: seq<byte>)
    requires StateOk(t)
    ensures FeedAll(t, [a, b]) == Feed(Feed(t, a), b)
  {
    var chunks := [a, b];
    assert chunks[0] == a && chunks[1..] == [b];
    OneRead(Feed(t, a), b);
  }

  lemma FeedOne(t: State, b: byte)
    requires StateOk(t)
    ensures Feed(t, [b]) == Byte(t, b).0
  {
    var s := [b];
    assert s[1..] == [];
  }

  /** A byte of a subnegotiation, with 255 doubled. */
  function Escaped(b: byte): seq<byte> {
    if b == IAC then [IAC, IAC] else [b]
  }

  function High(n: nat): byte
    requires n < 0x1_0000
  {
    (n / 256) as byte
  }

  function Low(n: nat): byte {
    (n % 256) as byte
  }

  function Payload(width: nat, height: nat): seq<byte>
    requires width < 0x1_0000 && height < 0x1_0000
  {
    [NAWS, High(width), Low(width), High(height), Low(height)]
  }

  function EscapedAll(s: seq<byte>): seq<byte> {
    if s == [] then [] else EscapedAll(s[..|s| - 1]) + Escaped(s[|s| - 1])
  }

  /** What a client sends to announce its window size. */
  function Encode(width: nat, height: nat): seq<byte>
    requires width < 0x1_0000 && height < 0x1_0000
  {
    [IAC, SB] + EscapedAll(Payload(width, height)) + [IAC, SE]
  }

  /** No command in the stream takes a byte along, so that every byte is seen. */
  predicate Unskipped(t: State, bytes: seq<byte>)
    requires StateOk(t)
    decreases |bytes|
  {
    bytes == [] || (Byte(t, bytes[0]).1 == 0 && Unskipped(Byte(t, bytes[0]).0, bytes[1..]))
  }

  lemma {:induction false} UnskippedSplit(t: State, a: seq<byte>, b: seq<byte>)
    requires StateOk(t) && Unskipped(t, a + b)
    ensures Unskipped(t, a) && !Waiting(t, a) && Unskipped(Feed(t, a), b) && Feed(t, a + b) == Feed(Feed(t, a), b)
    decreases |a|
  {
    if a == [] {
      assert a + b == b;
    } else {
      assert (a + b)[0] == a[0] && (a + b)[1..] == a[1..] + b;
      UnskippedSplit(Byte(t, a[0]).0, a[1..], b);
    }
  }

  lemma {:induction false} UnskippedJoin(t: State, a: seq<byte>, b: seq<byte>)
    requires StateOk(t) && Unskipped(t, a) && Unskipped(Feed(t, a), b)
    ensures Unskipped(t, a + b) && Feed(t, a + b) == Feed(Feed(t, a), b)
    decreases |a|
  {
    if a == [] {
      assert a + b == b;
    } else {
      assert (a + b)[0] == a[0] && (a + b)[1..] == a[1..] + b;
      UnskippedJoin(Byte(t, a[0]).0, a[1..], b);
    }
  }

  lemma {:induction false} UnskippedChunks(t: State, chunks: seq<seq<byte>>)
    requires StateOk(t) && Unskipped(t, Flatten(chunks))
    ensures FeedAll(t, chunks) == Feed(t, Flatten(chunks))
    decreases |chunks|
  {
    if chunks != [] {
      UnskippedSplit(t, chunks[0], Flatten(chunks[1..]));
      UnskippedChunks(Feed(t, chunks[0]), chunks[1..]);
    }
  }

  lemma FeedEscaped(t: State, b: byte)
    requires StateOk(t) && !t.iac && t.sb
    ensures Unskipped(t, Escaped(b)) && Feed(t, Escaped(b)) == Stored(t, b)
  {
    if b == IAC {
      var s: seq<byte> := [IAC, IAC];
      assert s[1..] == [IAC] && s[1..][1..] == [];
      FeedOne(t.(iac := true), IAC);
    } else {
      FeedOne(t, b);
    }
  }

  /** The bytes of a subnegotiation are stored in order, as far as the buffer reaches. */
  lemma {:induction false} FeedPayload(t: State, s: seq<byte>)
    requires StateOk(t) && !t.iac && t.sb && t.sbLen == 0 && |s| <= NAWS_SB_LEN
    ensures Unskipped(t, EscapedAll(s))
    ensures Feed(t, EscapedAll(s)) == t.(sbLen := |s|, sbBuf := s + t.sbBuf[|s|..])
  {
    hide Byte, Option, Escaped;
    if s == [] {
      assert s + t.sbBuf[0..] == t.sbBuf;
    } else {
      hide Feed, Unskipped;
      var r, b := s[..|s| - 1], s[|s| - 1];
      FeedPayload(t, r);
      var u := Feed(t, EscapedAll(r));
      FeedEscaped(u, b);
      UnskippedJoin(t, EscapedAll(r), Escaped(b));
      assert u.sbBuf[|r| := b] == s + t.sbBuf[|s|..];
    }
  }

  lemma FeedCommand(t: State, b: byte)
    requires StateOk(t) && !t.iac && (b == SB || b == SE)
    ensures Unskipped(t, [IAC, b]) && Feed(t, [IAC, b]) == Option(t, b).0
  {
    var s: seq<byte> := [IAC, b];
    assert s[1..] == [b] && s[1..][1..] == [];
    FeedOne(t.(iac := true), b);
    assert t.(iac := true).(iac := false) == t;
  }

  lemma WordParts(n: nat)
    requires n < 0x1_0000
    ensures Word(High(n), Low(n)) == n
  {
  }

  lemma FeedWindowSize(t: State, width: nat, height: nat)
    requires StateOk(t) && !t.iac && !t.sb && width < 0x1_0000 && height < 0x1_0000
    ensures Unskipped(t, Encode(width, height))
    ensures Feed(t, Encode(width, height)) ==
      t.(width := width, height := height, sbLen := NAWS_SB_LEN, sbBuf := Payload(width, height))
  {
    hide Option, Byte;
    var p := Payload(width, height);
    var t1 := Option(t, SB).0;
    FeedCommand(t, SB);
    OpenSub(t);
    FeedPayload(t1, p);
    var t2 := Feed(t1, EscapedAll(p));
    assert p + t1.sbBuf[5..] == p;
    UnskippedJoin(t, [IAC, SB], EscapedAll(p));
    FeedCommand(t2, SE);
    UnskippedJoin(t, [IAC, SB] + EscapedAll(p), [IAC, SE]);
    CloseSub(t2, width, height);
  }

  lemma OpenSub(t: State)
    requires StateOk(t)
    ensures Option(t, SB) == (t.(sb := true, sbLen := 0), 0)
  {
  }

  lemma CloseSub(t: State, width: nat, height: nat)
    requires StateOk(t) && t.sb && t.sbLen == NAWS_SB_LEN && width < 0x1_0000 && height < 0x1_0000 &&
      t.sbBuf == Payload(width, height)
    ensures Option(t, SE).0 == t.(sb := false, width := width, height := height)
  {
    WordParts(width);
    WordParts(height);
  }

  /** A window size sent by a client arrives, however the bytes are spread over reads, and nothing
      of it reaches the line editor. */
  lemma WindowSizeArrives(t: State, width: nat, height: nat, chunks: seq<seq<byte>>)
    requires StateOk(t) && !t.iac && !t.sb && width < 0x1_0000 && height < 0x1_0000
    requires Flatten(chunks) == Encode(width, height)
    ensures var u := FeedAll(t, chunks);
      u.width == width && u.height == height && u.plain == t.plain && !u.iac && !u.sb
  {
    FeedWindowSize(t, width, height);
    UnskippedChunks(t, chunks);
  }
}
