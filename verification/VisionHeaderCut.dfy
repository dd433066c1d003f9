/** The cut that loses sync: a read that ends inside the header of a Direct frame. Every run that ends in direct copy
    has one, and there are such runs. */
module VisionHeaderCut {
  import opened ByteStrings
  import opened TlsFilter
  import opened TlsRecords
  import opened VisionFrame
  import opened VisionParser
  import opened VisionPlan
  import opened VisionReader
  import opened VisionState
  import opened VisionStream
  import opened VisionWriter

  // ---------- Any run that ends in direct copy

  /** After the frames before a Direct frame, its command byte leaves the parser where the verdict on it is wrong. */
  lemma CommandByteMisleads(front: seq<Frame>)
    requires Disciplined(front) && !Terminated(front)
    ensures Misjudged(Feed(OPENED, EncodeAll(front) + [COMMAND_DIRECT]).0)
    ensures Feed(OPENED, EncodeAll(front) + [COMMAND_DIRECT]).0.command == 2
  {
    var p := Feed(OPENED, EncodeAll(front)).0;
    FeedFrames(OPENED, front);
    FeedAppend(OPENED, EncodeAll(front), [COMMAND_DIRECT]);
    FeedByte(p, COMMAND_DIRECT, []);
    assert [COMMAND_DIRECT] + [] == [COMMAND_DIRECT];
  }

  /** A wire that arrives in two reads of one chunk each. */
  function CutAt(wire: Bytes, n: nat, packets: int): seq<Batch>
    requires n <= |wire|
  {
    [Batch(packets, [wire[..n]]), Batch(packets, [wire[n..]])]
  }

  lemma DirectFrames(fs: seq<Frame>) returns (body: Bytes)
    requires Disciplined(fs) && TerminatedDirect(fs)
    ensures var front := fs[..|fs| - 1];
            body != [] && EncodeAll(fs) == (EncodeAll(front) + [COMMAND_DIRECT]) + body &&
            Disciplined(front) && !Terminated(front)
  {
    var k := |fs| - 1;
    var front, f := fs[..k], fs[k];
    assert fs == front + [f];
    FramesAppend(front, [f]);
    assert EncodeAll([f]) == Encode(f);
    body := Encode(f)[1..];
    assert Encode(f) == [COMMAND_DIRECT] + body;
    Assoc(EncodeAll(front), [COMMAND_DIRECT], body);
  }

  lemma DirectWire(uuid: Bytes, h: History, link: WriterLink, rawConnection: bool) returns (rest: Bytes)
    requires |uuid| == 16 && h.SoundFrames(link, rawConnection) && h.SoundBytes(uuid)
    requires TerminatedDirect(h.frames)
    ensures var front := h.frames[..|h.frames| - 1];
            rest != [] && h.wire == uuid + ((EncodeAll(front) + [COMMAND_DIRECT]) + rest) &&
            Disciplined(front) && !Terminated(front)
  {
    var body := DirectFrames(h.frames);
    rest := body + h.raw;
    Assoc(EncodeAll(h.frames[..|h.frames| - 1]) + [COMMAND_DIRECT], body, h.raw);
    Assoc(uuid, EncodeAll(h.frames), h.raw);
  }

  /** Every run with a frame before its Direct frame: if a read ends behind the command byte of that frame, the reader
      outputs something else than what was written. */
  lemma HeaderCutLosesSync(uuid: Bytes, h: History, link: WriterLink, rawConnection: bool, packets: int)
    requires |uuid| == 16 && h.SoundFrames(link, rawConnection) && h.SoundBytes(uuid)
    requires TerminatedDirect(h.frames) && |h.frames| >= 2
    ensures var n := 17 + |EncodeAll(h.frames[..|h.frames| - 1])|;
            n <= |h.wire| &&
            var batches := CutAt(h.wire, n, packets);
            && Delivered(batches) == h.wire && OpensWith(uuid, batches) && Spending(batches)
            && ReadRun(uuid, ReaderLink(true, false, FRESH), batches).1 != h.written
  {
    var front := h.frames[..|h.frames| - 1];
    var rest := DirectWire(uuid, h, link, rawConnection);
    AtLeastAHeader(front);
    UncleanCut(uuid, packets, front, rest, h.wire);
    StreamExact(uuid, h, link, rawConnection, CutAt(h.wire, 17 + |EncodeAll(front)|, packets));
  }

  lemma AtLeastAHeader(fs: seq<Frame>)
    requires fs != []
    ensures |EncodeAll(fs)| >= 5
  {
    assert EncodeAll(fs) == Encode(fs[0]) + EncodeAll(fs[1..]);
  }

  lemma UncleanCut(uuid: Bytes, packets: int, front: seq<Frame>, rest: Bytes, wire: Bytes)
    requires |uuid| == 16 && Disciplined(front) && !Terminated(front) && |EncodeAll(front)| >= 5
    requires rest != [] && wire == uuid + ((EncodeAll(front) + [COMMAND_DIRECT]) + rest)
    ensures var n := 17 + |EncodeAll(front)|;
            n <= |wire| &&
            var batches := CutAt(wire, n, packets);
            && Delivered(batches) == wire && OpensWith(uuid, batches) && Spending(batches)
            && !CleanCut(uuid, OPENED, AfterUuid(batches))
  {
    var start: Bytes := EncodeAll(front) + [COMMAND_DIRECT];
    assert 16 + |start| == 17 + |EncodeAll(front)|;
    CutShape(uuid, packets, wire, start, rest);
    var batches := CutAt(wire, 17 + |EncodeAll(front)|, packets);
    CutIsUnclean(uuid, packets, front, rest, AfterUuid(batches));
  }

  lemma CutShape(uuid: Bytes, packets: int, wire: Bytes, start: Bytes, rest: Bytes)
    requires |uuid| == 16 && |start| >= 5 && wire == uuid + (start + rest)
    ensures |wire| >= 16 + |start|
    ensures var n := 16 + |start|;
            var batches := CutAt(wire, n, packets);
            && Delivered(batches) == wire && OpensWith(uuid, batches) && Spending(batches)
            && AfterUuid(batches) == [Batch(packets, [start]), Batch(packets, [rest])]
  {
    var n := 16 + |start|;
    var a, b := wire[..n], wire[n..];
    assert a == uuid + start && b == rest && a[16..] == start && a[..16] == uuid;
    TwoReads(packets, a, b);
    assert [a][1..] == [];
    assert [a[16..]] + [a][1..] == [start];
  }

  lemma TwoReads(packets: int, a: Bytes, b: Bytes)
    requires a != []
    ensures var batches := [Batch(packets, [a]), Batch(packets, [b])];
            Delivered(batches) == a + b && Stripped(batches) == batches
  {
    var batches := [Batch(packets, [a]), Batch(packets, [b])];
    assert batches[1..] == [Batch(packets, [b])] && batches[1..][1..] == [];
    assert [a][1..] == [] && [b][1..] == [];
    assert Flatten([a]) == a && Flatten([b]) == b;
    assert Delivered(batches[1..]) == b + [] == b;
  }

  lemma CutIsUnclean(uuid: Bytes, packets: int, front: seq<Frame>, rest: Bytes, batches: seq<Batch>)
    requires Disciplined(front) && !Terminated(front) && rest != []
    requires batches == [Batch(packets, [EncodeAll(front) + [COMMAND_DIRECT]]), Batch(packets, [rest])]
    ensures !CleanCut(uuid, OPENED, batches)
  {
    var start: Bytes := EncodeAll(front) + [COMMAND_DIRECT];
    CommandByteMisleads(front);
    assert [start][1..] == [] && [rest][1..] == [];
    assert Flatten([start]) == start && Flatten([rest]) == rest;
    var second := batches[1..];
    assert second == [Batch(packets, [rest])];
    assert !CleanCut(uuid, Feed(OPENED, start).0, second);
  }

  // ---------- A run that does

  const ENABLED := Filter(0, true, true, true, 0x1301, 0)

  /** A server hello of TLS 1.3 with a suite that enables XTLS. */
  predicate LikeHello(b: Bytes) {
    && |b| == 79 && b[..3] == TLS_SERVER_HANDSHAKE_START && b[3] == 0 && b[4] == 74 && b[5] == HANDSHAKE_SERVER_HELLO
    && b[43] == 0 && b[44] == 0x13 && b[45] == 0x01 && b[73..79] == TLS13_SUPPORTED_VERSIONS
  }

  /** There are such buffers. */
  lemma SomeHello() returns (b: Buffer)
    ensures LikeHello(b)
  {
    var start: Bytes := [0x16, 0x03, 0x03, 0, 74, 0x02];
    b := seq(79, i requires 0 <= i < 79 =>
      if i < 6 then start[i] else if i == 44 then 0x13 else if i == 45 then 0x01
      else if i >= 73 then TLS13_SUPPORTED_VERSIONS[i - 73] else 0);
  }

  lemma HelloEnables(b: Bytes, stale: int)
    requires LikeHello(b)
    ensures FilterOne(FRESH_FILTER, b, stale) == (ENABLED, true)
  {
    assert b[..79] == b;
    assert OccursAt(b, TLS13_SUPPORTED_VERSIONS, 73);
    assert CipherAt(b, stale) == 0x1301;
  }

  lemma OnePiece(b: Buffer)
    requires |b| < BUFFER_SIZE - 21
    ensures Reshaped([Buf(b)]) == [Buf(b)] && Payload([Buf(b)]) == b
  {
    NothingToReshape([Buf(b)]);
    assert [Buf(b)][1..] == [];
  }

  /** The hello goes out in a Continue frame. */
  lemma HelloFrame(b: Buffer, fs: seq<Frame>, link: WriterLink, seeds: Seeds)
    requires LikeHello(b) && Follows(ENABLED, [Buf(b)], fs, link, seeds)
    ensures |fs| == 1 && fs[0].command == COMMAND_CONTINUE && fs[0].content == b
  {
    OnePiece(b);
    assert b[..3][0] == 0x16;
    assert Commands(fs)[0] == fs[0].command;
  }

  /** A record goes out in a Direct frame. */
  lemma RecordFrame(b: Buffer, fs: seq<Frame>, link: WriterLink, seeds: Seeds)
    requires WholeRecords(b) && 6 <= |b| < BUFFER_SIZE - 21 && b[..3] == APPLICATION_DATA_START
    requires Follows(ENABLED, [Buf(b)], fs, link, seeds)
    ensures |fs| == 1 && fs[0].command == COMMAND_DIRECT && fs[0].content == b
  {
    OnePiece(b);
    assert b[0] == b[..3][0] && b[1] == b[..3][1] && b[2] == b[..3][2];
    assert DataPiece(ENABLED, WholeRecords(b), [Buf(b)], 0);
    assert Commands(fs)[0] == fs[0].command;
  }

  lemma FilteredHello(b: Buffer, stale: seq<int>)
    requires LikeHello(b) && |stale| == 1
    ensures FilterAll(FRESH_FILTER, [Buf(b)], stale).0 == ENABLED
  {
    HelloEnables(b, stale[0]);
    assert [Buf(b)][..0] == [] && stale[..0] == [];
  }

  /** Nothing written yet on a new connection. */
  ghost predicate Unused(w: VisionWriter)
    reads w, w.state
  {
    w.Valid() && !w.isUplink && w.seeds == DEFAULT_SEEDS && w.state.filter == FRESH_FILTER &&
    w.history == History(w.state.userUuid, [], [], [], [])
  }

  ghost predicate HelloWritten(w: VisionWriter, hello: Buffer)
    reads w, w.state
  {
    w.Valid() && !w.isUplink && w.seeds == DEFAULT_SEEDS && w.state.filter == ENABLED &&
    |w.history.frames| == 1 && w.history.frames[0].command == COMMAND_CONTINUE && w.history.written == hello
  }

  lemma NothingLeft(fs: seq<Frame>, tail: Bytes, b: Bytes)
    requires |fs| == 1 && fs[0].content == b && b == Contents(fs) + tail
    ensures tail == [] && Contents(fs) == b
  {
    assert Contents(fs) == fs[0].content + Contents(fs[1..]);
  }

  method WriteHello(w: VisionWriter, hello: Buffer) returns (out: seq<Slot>)
    requires Unused(w) && LikeHello(hello)
    modifies w, w.state`filter, w.state`inboundWriter, w.state`outboundWriter
    ensures HelloWritten(w, hello) && w.history.wire == Payload(out)
  {
    ghost var fs, tail, stale;
    DefaultSeedsAreSafe();
    var panics;
    panics, out, fs, tail, stale := w.WriteMultiBuffer([Buf(hello)]);
    FilteredHello(hello, stale);
    HelloFrame(hello, fs, w.state.Writer(false), w.seeds);
    OnePiece(hello);
    NothingLeft(fs, tail, hello);
    assert w.history.frames == fs;
  }

  method WriteRecord(w: VisionWriter, ghost hello: Buffer, b: Buffer) returns (out: seq<Slot>)
    requires HelloWritten(w, hello)
    requires WholeRecords(b) && 6 <= |b| < BUFFER_SIZE - 21 && b[..3] == APPLICATION_DATA_START
    modifies w, w.state`filter, w.state`inboundWriter, w.state`outboundWriter
    ensures w.Valid() && |w.history.frames| == 2 && w.history.frames[..1] == old(w.history.frames)
    ensures TerminatedDirect(w.history.frames)
    ensures w.history.written == hello + b && w.history.wire == old(w.history.wire) + Payload(out)
  {
    ghost var fs, tail, stale;
    DefaultSeedsAreSafe();
    var panics;
    panics, out, fs, tail, stale := w.WriteMultiBuffer([Buf(b)]);
    RecordFrame(b, fs, w.state.Writer(false), w.seeds);
    OnePiece(b);
    NothingLeft(fs, tail, b);
  }

  /** A new connection on which such a hello and then a data record are written. Its wire can be cut so that the
      reader outputs something else. */
  method LosingRun(uuid: Bytes, hello: Buffer, record: Buffer) returns (w: VisionWriter, wire: Bytes, n: nat)
    requires |uuid| == 16 && LikeHello(hello)
    requires WholeRecords(record) && 6 <= |record| < BUFFER_SIZE - 21 && record[..3] == APPLICATION_DATA_START
    ensures w.Valid() && w.history.wire == wire && w.history.written == hello + record
    ensures n <= |wire|
    ensures forall packets :: OpensWith(uuid, CutAt(wire, n, packets)) &&
              ReadRun(uuid, ReaderLink(true, false, FRESH), CutAt(wire, n, packets)).1 != hello + record
  {
    var state := new TrafficState(uuid);
    w := new VisionWriter(state, false, []);
    var first := WriteHello(w, hello);
    ghost var before := w.history;
    var second := WriteRecord(w, hello, record);
    wire := Payload(first) + Payload(second);
    n := |Payload(first)| + 1;
    CutBehindHello(uuid, before, w.history, w.rawConnection, w.state.Writer(false), n);
  }

  lemma FirstWire(uuid: Bytes, h: History)
    requires |uuid| == 16 && h.SoundBytes(uuid) && h.frames != [] && h.raw == []
    ensures |h.wire| == 16 + |EncodeAll(h.frames)|
  {
  }

  lemma CutBehindHello(uuid: Bytes, before: History, h: History, rawConnection: bool, link: WriterLink, n: nat)
    requires |uuid| == 16 && before.SoundBytes(uuid) && |before.frames| == 1 && before.raw == []
    requires h.SoundFrames(link, rawConnection) && h.SoundBytes(uuid) && n == |before.wire| + 1
    requires |h.frames| == 2 && h.frames[..1] == before.frames && TerminatedDirect(h.frames)
    ensures n <= |h.wire|
    ensures forall packets :: OpensWith(uuid, CutAt(h.wire, n, packets)) &&
              ReadRun(uuid, ReaderLink(true, false, FRESH), CutAt(h.wire, n, packets)).1 != h.written
  {
    FirstWire(uuid, before);
    assert h.frames[..|h.frames| - 1] == before.frames && n == 17 + |EncodeAll(before.frames)|;
    HeaderCutLosesSync(uuid, h, link, rawConnection, 0);
    forall packets: int
      ensures OpensWith(uuid, CutAt(h.wire, n, packets)) &&
              ReadRun(uuid, ReaderLink(true, false, FRESH), CutAt(h.wire, n, packets)).1 != h.written
    {
      HeaderCutLosesSync(uuid, h, link, rawConnection, packets);
    }
  }
}
