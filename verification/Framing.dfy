/** Message framing: what the server writes (gopath/src/griefly-server/client_conn.go:43-120), and the client's parser,
    which is fed whatever chunks the socket has (sources/client/net/Network2.cpp:217-295). Bodies are not looked into.
 */
module Framing {

  import SerialFormat

  type Byte = SerialFormat.Byte

  const HEADER_SIZE := 8
  const MAX_BUFFER_SIZE := 1024 * 128

  /** A message on the wire: its kind and its JSON. */
  datatype Frame = Frame(kind: int, body: seq<Byte>)

  // ----- integers, highest byte first

  function PutUint32(n: nat): (s: seq<Byte>)
    requires n < 0x1_0000_0000
    ensures |s| == 4
  {
    [n / 0x100_0000, n / 0x1_0000 % 256, n / 0x100 % 256, n % 256]
  }

  function Uint32(s: seq<Byte>): nat
    requires |s| == 4
  {
    var a: int, b: int, c: int, d: int := s[0], s[1], s[2], s[3];
    0x100_0000 * a + 0x1_0000 * b + 0x100 * c + d
  }

  function Int32(s: seq<Byte>): int
    requires |s| == 4
  {
    var u: int := Uint32(s);
    if u >= 0x8000_0000 then u - 0x1_0000_0000 else u
  }

  lemma Uint32Back(n: nat)
    requires n < 0x1_0000_0000
    ensures Uint32(PutUint32(n)) == n && (n < 0x8000_0000 ==> Int32(PutUint32(n)) == n)
  {}

  // ----- writing

  /** A frame whose length and kind a signed 32-bit integer holds. */
  predicate Small(f: Frame) {
    |f.body| < 0x8000_0000 && 0 <= f.kind < 0x8000_0000
  }

  function Header(length: nat, kind: nat): (s: seq<Byte>)
    requires length < 0x1_0000_0000 && kind < 0x1_0000_0000
    ensures |s| == HEADER_SIZE
  {
    PutUint32(length) + PutUint32(kind)
  }

  /** `writeMessage`, and the client's `sendMessage`. */
  function WriteMessage(f: Frame): seq<Byte>
    requires Small(f)
  {
    Header(|f.body|, f.kind) + f.body
  }

  function WriteAll(fs: seq<Frame>): seq<Byte>
    requires forall f :: f in fs ==> Small(f)
  {
    if fs == [] then [] else WriteMessage(fs[0]) + WriteAll(fs[1..])
  }

  // ----- what a stream means

  function Size(s: seq<Byte>): int
    requires |s| >= HEADER_SIZE
  {
    Int32(s[..4])
  }

  /** The stream starts with a whole frame. */
  predicate Whole(s: seq<Byte>) {
    |s| >= HEADER_SIZE && 0 <= Size(s) <= |s| - HEADER_SIZE
  }

  function FirstFrame(s: seq<Byte>): Frame
    requires Whole(s)
  {
    Frame(Int32(s[4..8]), s[HEADER_SIZE..HEADER_SIZE + Size(s)])
  }

  function AfterFirst(s: seq<Byte>): seq<Byte>
    requires Whole(s)
  {
    s[HEADER_SIZE + Size(s)..]
  }

  /** No length in the stream is negative, as far as it goes. */
  predicate Sane(s: seq<Byte>)
    decreases |s|
  {
    && (|s| >= HEADER_SIZE ==> Size(s) >= 0)
    && (Whole(s) ==> Sane(AfterFirst(s)))
  }

  /** The whole frames of a stream. */
  function Frames(s: seq<Byte>): seq<Frame>
    decreases |s|
  {
    if Whole(s) then [FirstFrame(s)] + Frames(AfterFirst(s)) else []
  }

  /** What is left after them. */
  function Leftover(s: seq<Byte>): seq<Byte>
    decreases |s|
  {
    if Whole(s) then Leftover(AfterFirst(s)) else s
  }

  /** What was written comes out, whatever follows. */
  lemma WrittenFirst(f: Frame, rest: seq<Byte>)
    requires Small(f)
    ensures var s := WriteMessage(f) + rest;
      Whole(s) && FirstFrame(s) == f && AfterFirst(s) == rest
  {
    Uint32Back(|f.body|);
    Uint32Back(f.kind);
    var s := WriteMessage(f) + rest;
    assert s[..4] == PutUint32(|f.body|) && s[4..8] == PutUint32(f.kind);
    assert s[8..] == f.body + rest;
    hide PutUint32, Int32;
    assert s[8..8 + |f.body|] == f.body && s[8 + |f.body|..] == rest;
  }

  /** A stream of frames means those frames, and leaves nothing. */
  lemma {:induction false} FramesBack(fs: seq<Frame>)
    requires forall f :: f in fs ==> Small(f)
    ensures Frames(WriteAll(fs)) == fs && Leftover(WriteAll(fs)) == [] && Sane(WriteAll(fs))
  {
    hide Whole, FirstFrame, AfterFirst, WriteMessage, Small, Size;
    if fs == [] {
      NothingWhole();
    } else {
      WrittenFirst(fs[0], WriteAll(fs[1..]));
      WholeIsSane(WriteAll(fs));
      FramesBack(fs[1..]);
      assert fs == [fs[0]] + fs[1..];
    }
  }

  lemma NothingWhole()
    ensures !Whole([])
  {}

  lemma WholeIsSane(s: seq<Byte>)
    requires Whole(s)
    ensures |s| >= HEADER_SIZE && Size(s) >= 0
  {}

  /** Whether a stream starts with a whole frame, and with which, later bytes do not change. */
  lemma WholeStays(s: seq<Byte>, more: seq<Byte>)
    ensures Whole(s) ==> Whole(s + more) && FirstFrame(s + more) == FirstFrame(s) && AfterFirst(s + more) == AfterFirst(s) + more
    ensures |s| >= HEADER_SIZE ==> Size(s + more) == Size(s)
  {
    var t := s + more;
    if |s| >= HEADER_SIZE {
      assert t[..4] == s[..4] && t[4..8] == s[4..8];
    }
    hide Int32;
    if Whole(s) {
      assert t[8..8 + Size(s)] == s[8..8 + Size(s)];
      assert t[8 + Size(s)..] == s[8 + Size(s)..] + more;
    }
  }

  /** Reading in two parts is reading at once. */
  lemma {:induction false} FramesSplit(s: seq<Byte>, more: seq<Byte>)
    requires Sane(s + more)
    ensures Sane(s) && Sane(Leftover(s) + more)
    ensures Frames(s + more) == Frames(s) + Frames(Leftover(s) + more)
    ensures Leftover(s + more) == Leftover(Leftover(s) + more)
    decreases |s|
  {
    WholeStays(s, more);
    hide Whole, FirstFrame, Size;
    if Whole(s) {
      Shorter(s);
      FramesSplit(AfterFirst(s), more);
      hide AfterFirst;
      assert [FirstFrame(s)] + (Frames(AfterFirst(s)) + Frames(Leftover(s) + more)) == Frames(s) + Frames(Leftover(s) + more);
    }
  }

  // ----- the client

  datatype ReadingState = HEADER | BODY

  class SocketHandler {
    var buffer: seq<Byte>
    var bufferPos: nat
    var readingState: ReadingState
    var messageSize: int
    var messageType: int
    var isFirstMessage: bool
    /** What the signal firstMessage carried, and what went to the network's queue. */
    var first: seq<Frame>
    var queue: seq<Frame>

    ghost predicate Valid()
      reads this
    {
      && bufferPos <= |buffer|
      && (readingState.BODY? ==> 0 <= messageSize < 0x8000_0000)
      && (if isFirstMessage then first == [] && queue == [] else |first| == 1)
    }

    /** All messages so far. */
    ghost function Delivered(): seq<Frame>
      reads this
    {
      first + queue
    }

    /** The rest of the buffer, and the frame that a parsed header has begun: the state in terms of the stream. */
    ghost predicate Pending(s: seq<Byte>)
      reads this
    {
      bufferPos <= |buffer| &&
      match readingState
      case HEADER => s == buffer[bufferPos..]
      case BODY =>
        && |s| >= HEADER_SIZE && Size(s) == messageSize && Int32(s[4..8]) == messageType
        && s[HEADER_SIZE..] == buffer[bufferPos..]
    }

    constructor ()
      ensures Valid() && Delivered() == [] && Pending([])
    {
      buffer := [];
      bufferPos := 0;
      readingState := HEADER;
      messageSize := 0;
      messageType := 0;
      isFirstMessage := true;
      first := [];
      queue := [];
    }

    method HandleHeader(ghost s: seq<Byte>) returns (more: bool)
      requires Valid() && readingState.HEADER? && Pending(s) && Sane(s)
      modifies this`messageSize, this`messageType, this`bufferPos, this`readingState
      ensures Valid() && Pending(s) && buffer == old(buffer)
      ensures more == readingState.BODY? && (more ==> |s| >= HEADER_SIZE) && (!more ==> !Whole(s))
    {
      if |buffer| - bufferPos < HEADER_SIZE { return false; }
      assert buffer[bufferPos..bufferPos + 4] == s[..4] && buffer[bufferPos + 4..bufferPos + 8] == s[4..8];
      assert buffer[bufferPos + 8..] == s[8..];
      messageSize := Int32(buffer[bufferPos..bufferPos + 4]);
      messageType := Int32(buffer[bufferPos + 4..bufferPos + 8]);
      bufferPos := bufferPos + 8;
      readingState := BODY;
      return true;
    }

    method HandleBody(ghost s: seq<Byte>) returns (more: bool)
      requires Valid() && readingState.BODY? && Pending(s)
      modifies this`bufferPos, this`isFirstMessage, this`first, this`queue, this`readingState
      ensures Valid() && more == Whole(s) && buffer == old(buffer)
      ensures more ==> Pending(AfterFirst(s)) && Delivered() == old(Delivered()) + [FirstFrame(s)] && readingState.HEADER?
      ensures !more ==> Pending(s) && Delivered() == old(Delivered())
    {
      hide Int32;
      if |buffer| - bufferPos < messageSize { return false; }
      var message := Frame(messageType, buffer[bufferPos..bufferPos + messageSize]);
      assert message.body == s[HEADER_SIZE..][..messageSize];
      assert buffer[bufferPos + messageSize..] == s[HEADER_SIZE..][messageSize..];
      assert s[HEADER_SIZE..][..messageSize] == s[HEADER_SIZE..HEADER_SIZE + messageSize];
      assert s[HEADER_SIZE..][messageSize..] == s[HEADER_SIZE + messageSize..];
      ghost var was := Delivered();
      bufferPos := bufferPos + messageSize;
      if isFirstMessage {
        first := first + [message];
        isFirstMessage := false;
      } else {
        queue := queue + [message];
      }
      readingState := HEADER;
      assert Delivered() == was + [message];
      return true;
    }

    /** New bytes: exactly the frames they complete are delivered. `s` is what was pending. */
    method HandleNewData(data: seq<Byte>, ghost s: seq<Byte>)
      requires Valid() && Pending(s) && Sane(s + data)
      modifies this
      ensures Valid() && Pending(Leftover(s + data)) && Delivered() == old(Delivered()) + Frames(s + data)
      ensures |buffer| > MAX_BUFFER_SIZE ==> bufferPos == 0
    {
      hide Whole, FirstFrame, AfterFirst, Size, Int32, Frames, Leftover, Sane;
      Append(data, s);
      ghost var t := s + data;
      ghost var had := Delivered();
      var isContinue := true;
      while isContinue
        invariant Valid() && Pending(t) && Sane(t) && had + Frames(s + data) == Delivered() + Frames(t)
        invariant Leftover(s + data) == Leftover(t)
        invariant !isContinue ==> !Whole(t)
        decreases isContinue, |t|, readingState.HEADER?
      {
        match readingState {
          case HEADER => isContinue := HandleHeader(t);
          case BODY =>
            ghost var sofar := Delivered();
            isContinue := HandleBody(t);
            if isContinue {
              OneFrame(t);
              assert sofar + ([FirstFrame(t)] + Frames(AfterFirst(t))) == sofar + [FirstFrame(t)] + Frames(AfterFirst(t));
              t := AfterFirst(t);
            }
        }
      }
      NoFrame(t);
      Compact(t);
    }

    method Compact(ghost s: seq<Byte>)
      requires Valid() && Pending(s)
      modifies this`buffer, this`bufferPos
      ensures Valid() && Pending(s) && (|buffer| > MAX_BUFFER_SIZE ==> bufferPos == 0)
    {
      if |buffer| > MAX_BUFFER_SIZE {
        buffer := buffer[bufferPos..];
        bufferPos := 0;
      }
    }

    method Append(data: seq<Byte>, ghost s: seq<Byte>)
      requires Valid() && Pending(s)
      modifies this`buffer
      ensures Valid() && Pending(s + data)
    {
      WholeStays(s, data);
      hide Int32;
      assert (buffer + data)[bufferPos..] == buffer[bufferPos..] + data;
      if readingState.BODY? {
        assert (s + data)[HEADER_SIZE..] == s[HEADER_SIZE..] + data && (s + data)[4..8] == s[4..8];
      }
      buffer := buffer + data;
    }
  }

  lemma Shorter(s: seq<Byte>)
    requires Whole(s)
    ensures |AfterFirst(s)| < |s|
  {}

  lemma OneFrame(s: seq<Byte>)
    requires Whole(s)
    ensures |AfterFirst(s)| < |s| && Leftover(s) == Leftover(AfterFirst(s)) && Frames(s) == [FirstFrame(s)] + Frames(AfterFirst(s))
    ensures Sane(s) ==> Sane(AfterFirst(s))
  {}

  lemma NoFrame(s: seq<Byte>)
    requires !Whole(s)
    ensures Leftover(s) == s && Frames(s) == []
  {}

  // ----- chunks

  function Joined(chunks: seq<seq<Byte>>): seq<Byte> {
    if chunks == [] then [] else Joined(chunks[..|chunks| - 1]) + chunks[|chunks| - 1]
  }

  /** However the server's messages are cut into chunks, a new client delivers exactly those messages, in order: the
      first as the first message, the others to the queue. */
  method ReceiveAll(fs: seq<Frame>, chunks: seq<seq<Byte>>) returns (h: SocketHandler)
    requires (forall f :: f in fs ==> Small(f)) && Joined(chunks) == WriteAll(fs)
    ensures fresh(h) && h.Valid() && h.Delivered() == fs && h.Pending([])
    ensures fs != [] ==> h.first == [fs[0]] && h.queue == fs[1..]
  {
    h := new SocketHandler();
    FramesBack(fs);
    hide Sane, Frames, Leftover, Small;
    NothingYet();
    for i := 0 to |chunks|
      invariant h.Valid() && h.Delivered() == Frames(Joined(chunks[..i])) && h.Pending(Leftover(Joined(chunks[..i])))
    {
      ghost var before, now := Joined(chunks[..i]), Joined(chunks[..i + 1]);
      JoinedNext(chunks, i);
      assert chunks[..|chunks|] == chunks;
      JoinedPrefix(chunks, i + 1);
      SanePrefix(now, Joined(chunks));
      FramesSplit(before, chunks[i]);
      h.HandleNewData(chunks[i], Leftover(before));
    }
    assert chunks[..|chunks|] == chunks;
  }

  lemma NothingYet()
    ensures Frames([]) == [] && Leftover([]) == []
  {}

  lemma JoinedNext(chunks: seq<seq<Byte>>, i: nat)
    requires i < |chunks|
    ensures Joined(chunks[..i + 1]) == Joined(chunks[..i]) + chunks[i]
  {
    assert chunks[..i + 1][..i] == chunks[..i];
  }

  lemma {:induction false} JoinedPrefix(chunks: seq<seq<Byte>>, i: nat)
    requires i <= |chunks|
    ensures Joined(chunks[..i]) <= Joined(chunks)
    decreases |chunks| - i
  {
    if i < |chunks| {
      JoinedNext(chunks, i);
      JoinedPrefix(chunks, i + 1);
    } else {
      assert chunks[..i] == chunks;
    }
  }

  lemma SanePrefix(s: seq<Byte>, t: seq<Byte>)
    requires s <= t && Sane(t)
    ensures Sane(s)
  {
    assert s + t[|s|..] == t;
    FramesSplit(s, t[|s|..]);
  }

  /** At any moment what has been delivered is a beginning of what was sent. */
  lemma DeliveredIsPrefix(fs: seq<Frame>, received: seq<Byte>)
    requires (forall f :: f in fs ==> Small(f)) && received <= WriteAll(fs)
    ensures Frames(received) <= fs
  {
    hide Frames, Sane, Leftover;
    FramesBack(fs);
    var more := WriteAll(fs)[|received|..];
    assert received + more == WriteAll(fs);
    FramesSplit(received, more);
  }

  // ----- the server reads

  const MAX_MESSAGE_LENGTH := 1024 * 1024

  /** The longest body the server takes, by kind. */
  function MaxLength(kind: int): nat {
    if kind in {1, 3, 201, 202, 401, 1001, 1004, 1102} then 512
    else if kind in {204, 205} then 128
    else if kind in {1002, 1005} then 2048
    else MAX_MESSAGE_LENGTH
  }

  datatype ReadResult = Message(frame: Frame, rest: seq<Byte>) | MessageIsTooLong(length: nat) | NotAll

  /** `readMessage` on a stream that ends where it ends: the length is unsigned here. */
  function ReadMessage(s: seq<Byte>): ReadResult {
    if |s| < HEADER_SIZE then NotAll
    else
      var length, kind := Uint32(s[..4]), Uint32(s[4..8]);
      if length > MaxLength(kind) then MessageIsTooLong(length)
      else if length == 0 then Message(Frame(kind, []), s[8..])
      else if |s| - HEADER_SIZE < length then NotAll
      else Message(Frame(kind, s[8..8 + length]), s[8 + length..])
  }

  /** What a client sends the server reads, or refuses for its length. */
  lemma ServerReads(f: Frame, rest: seq<Byte>)
    requires Small(f)
    ensures ReadMessage(WriteMessage(f) + rest) ==
      if |f.body| <= MaxLength(f.kind) then Message(f, rest) else MessageIsTooLong(|f.body|)
  {
    hide MaxLength;
    Uint32Back(|f.body|);
    Uint32Back(f.kind);
    var s := WriteMessage(f) + rest;
    assert s[..4] == PutUint32(|f.body|) && s[4..8] == PutUint32(f.kind);
    assert s[8..] == f.body + rest;
    hide PutUint32, Uint32;
    assert s[8..8 + |f.body|] == f.body && s[8 + |f.body|..] == rest;
  }
}
