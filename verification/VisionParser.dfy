/** The parsing half of the Vision stream: XtlsUnpadding, resumable at any byte boundary. */
module VisionParser {
  import opened ByteStrings
  import opened VisionFrame

  /** Where a reader stands inside the frame stream: the three countdowns and the current command. */
  datatype Parser = Parser(header: int, content: int, padding: int, command: int) {
    /** Not inside a frame: before the user id, or after the terminal frame. */
    predicate Idle() {
      header == -1 && content == -1 && padding == -1
    }

    /** Nothing read of the next frame yet. */
    predicate AtHeader() {
      header == 5 && content <= 0 && padding <= 0
    }

    /** The positions the parser can be in. */
    predicate Valid() {
      || Idle()
      || AtHeader()
      || (header == 4 && content <= 0 && padding <= 0)
      || (header == 3 && 0 <= content <= 0xff00 && content % 256 == 0 && padding <= 0)
      || (header == 2 && 0 <= content <= 0xffff && padding <= 0)
      || (header == 1 && 0 <= content <= 0xffff && 0 <= padding <= 0xff00 && padding % 256 == 0)
      || (header == 0 && 0 <= content <= 0xffff && 0 <= padding <= 0xffff && content + padding > 0)
    }

    /** The end of a block: on to the next header, or idle after a terminal command. */
    function Settle(): Parser {
      if header <= 0 && content <= 0 && padding <= 0 then
        if command == 0 then this.(header := 5) else Parser(-1, -1, -1, command)
      else this
    }

    function HeaderByte(x: Byte): Parser {
      var p := match header
        case 5 => this.(command := x)
        case 4 => this.(content := Word(x, 0))
        case 3 => this.(content := content + x)
        case 2 => this.(padding := Word(x, 0))
        case 1 => this.(padding := padding + x)
        case _ => this;
      p.(header := header - 1)
    }

    /** One byte, and what it adds to the output. */
    function Step(x: Byte): (Parser, Bytes) {
      if header > 0 then (HeaderByte(x).Settle(), [])
      else if content > 0 then (this.(content := content - 1).Settle(), [x])
      else (this.(padding := padding - 1).Settle(), [])
    }
  }

  const FRESH := Parser(-1, -1, -1, 0)
  const OPENED := Parser(5, -1, -1, 0)

  /** Byte by byte; once idle, everything passes through. */
  function Feed(p: Parser, bs: Bytes): (Parser, Bytes)
    decreases |bs|
  {
    if bs == [] then (p, [])
    else if p.Idle() then (p, bs)
    else
      var (q, now) := p.Step(bs[0]);
      var (r, later) := Feed(q, bs[1..]);
      (r, now + later)
  }

  lemma {:induction false} FeedAppend(p: Parser, a: Bytes, b: Bytes)
    ensures Feed(p, a + b) ==
            (Feed(Feed(p, a).0, b).0, Feed(p, a).1 + Feed(Feed(p, a).0, b).1)
    decreases |a|
  {
    if a == [] {
      assert a + b == b && [] + Feed(p, b).1 == Feed(p, b).1;
    } else if !p.Idle() {
      var (q, now) := p.Step(a[0]);
      assert (a + b)[1..] == a[1..] + b;
      FeedAppend(q, a[1..], b);
      assert now + (Feed(q, a[1..]).1 + Feed(Feed(q, a[1..]).0, b).1)
          == (now + Feed(q, a[1..]).1) + Feed(Feed(q, a[1..]).0, b).1;
    } else if b == [] {
      assert a + b == a;
    }
  }

  lemma {:induction false} FeedKeepsValid(p: Parser, bs: Bytes)
    requires p.Valid()
    ensures Feed(p, bs).0.Valid()
    ensures |Feed(p, bs).1| <= |bs|
    decreases |bs|
  {
    if bs != [] && !p.Idle() {
      FeedKeepsValid(p.Step(bs[0]).0, bs[1..]);
    }
  }

  // ---------- Whole pieces of a frame

  lemma {:induction false} FeedContent(p: Parser, bs: Bytes)
    requires p.header == 0 && |bs| <= p.content && 0 <= p.padding && bs != []
    ensures Feed(p, bs) == (p.(content := p.content - |bs|).Settle(), bs)
    decreases |bs|
  {
    var q := p.(content := p.content - 1);
    assert p.Step(bs[0]) == (q.Settle(), [bs[0]]);
    assert bs == [bs[0]] + bs[1..];
    if |bs| > 1 {
      FeedContent(q, bs[1..]);
    }
  }

  lemma {:induction false} FeedPadding(p: Parser, bs: Bytes)
    requires p.header == 0 && p.content == 0 && |bs| <= p.padding && bs != []
    ensures Feed(p, bs) == (p.(padding := p.padding - |bs|).Settle(), [])
    decreases |bs|
  {
    var q := p.(padding := p.padding - 1);
    assert p.Step(bs[0]) == (q.Settle(), []);
    assert Feed(p, bs).1 == Feed(q.Settle(), bs[1..]).1;
    if |bs| > 1 {
      FeedPadding(q, bs[1..]);
    }
  }

  lemma FeedByte(p: Parser, x: Byte, rest: Bytes)
    requires !p.Idle()
    ensures Feed(p, [x] + rest) == (Feed(p.Step(x).0, rest).0, p.Step(x).1 + Feed(p.Step(x).0, rest).1)
  {
    assert ([x] + rest)[1..] == rest;
  }

  /** A header byte moves the parser and outputs nothing. */
  lemma FeedHeaderByte(p: Parser, h: Bytes, x: Byte, q: Parser)
    requires p.header > 0 && h != [] && h[0] == x && q == p.Step(x).0
    ensures Feed(p, h) == Feed(q, h[1..])
  {
    assert [] + Feed(q, h[1..]).1 == Feed(q, h[1..]).1;
  }

  lemma FeedHeader(p: Parser, f: Frame)
    requires p.AtHeader()
    ensures Feed(p, Header(f)) == (Parser(0, |f.content|, f.padding, f.command).Settle(), [])
  {
    var c, n := |f.content|, f.padding;
    var p1 := p.(header := 4, command := f.command);
    var p2 := p1.(header := 3, content := Word(High(c), 0));
    var p3 := p2.(header := 2, content := c);
    var p4 := p3.(header := 1, padding := Word(High(n), 0));
    var p5 := p4.(header := 0, padding := n);
    var h := Header(f);
    FeedHeaderByte(p, h, f.command, p1);
    FeedHeaderByte(p1, h[1..], High(c), p2);
    assert h[1..][1..] == h[2..];
    FeedHeaderByte(p2, h[2..], Low(c), p3);
    assert h[2..][1..] == h[3..];
    FeedHeaderByte(p3, h[3..], High(n), p4);
    assert h[3..][1..] == h[4..];
    FeedHeaderByte(p4, h[4..], Low(n), p5.Settle());
    assert h[4..][1..] == [];
  }

  /** The parser undoes the printer: one frame gives back its content and leaves the parser between frames,
      or idle if the frame was terminal. */
  lemma FeedFrame(p: Parser, f: Frame)
    requires p.AtHeader()
    ensures Feed(p, Encode(f)).1 == f.content
    ensures Feed(p, Encode(f)).0 == if f.command == 0 then Parser(5, 0, 0, 0) else Parser(-1, -1, -1, f.command)
  {
    var h := Parser(0, |f.content|, f.padding, f.command);
    FeedHeader(p, f);
    FeedAppend(p, Header(f) + f.content, Zeros(f.padding));
    FeedAppend(p, Header(f), f.content);
    if f.content != [] {
      FeedContent(h, f.content);
    }
    if f.padding > 0 {
      FeedPadding(h.(content := 0), Zeros(f.padding));
    }
  }

  /** Frames as a Vision writer emits them: only the last may be terminal. */
  predicate Disciplined(fs: seq<Frame>) {
    && (forall i :: 0 <= i < |fs| ==> 0 <= fs[i].command <= 2)
    && (forall i :: 0 <= i < |fs| - 1 ==> fs[i].command == COMMAND_CONTINUE)
  }

  predicate Terminated(fs: seq<Frame>) {
    fs != [] && fs[|fs| - 1].command != COMMAND_CONTINUE
  }

  /** The terminal frame asks for direct copy. */
  predicate TerminatedDirect(fs: seq<Frame>) {
    fs != [] && fs[|fs| - 1].command == COMMAND_DIRECT
  }

  lemma DisciplineAppend(a: seq<Frame>, b: seq<Frame>)
    requires Disciplined(a) && !Terminated(a) && Disciplined(b)
    ensures Disciplined(a + b)
    ensures Terminated(a + b) <==> Terminated(b)
    ensures TerminatedDirect(a + b) <==> TerminatedDirect(b)
  {
    if b == [] {
      assert a + b == a;
    }
  }

  lemma {:induction false} FeedFrames(p: Parser, fs: seq<Frame>)
    requires p.AtHeader() && Disciplined(fs)
    ensures Feed(p, EncodeAll(fs)).1 == Contents(fs)
    ensures Terminated(fs) ==> Feed(p, EncodeAll(fs)).0 == Parser(-1, -1, -1, fs[|fs| - 1].command)
    ensures !Terminated(fs) ==> Feed(p, EncodeAll(fs)).0.AtHeader()
    decreases |fs|
  {
    if fs != [] {
      FeedFrame(p, fs[0]);
      FeedAppend(p, Encode(fs[0]), EncodeAll(fs[1..]));
      if |fs| > 1 {
        FeedFrames(Parser(5, 0, 0, 0), fs[1..]);
      } else {
        assert EncodeAll(fs[1..]) == [];
      }
    }
  }

  /** A stream of frames, and after the terminal one raw bytes. */
  lemma FeedStream(p: Parser, fs: seq<Frame>, raw: Bytes)
    requires p.AtHeader() && Disciplined(fs)
    requires Terminated(fs) || raw == []
    ensures Feed(p, EncodeAll(fs) + raw).1 == Contents(fs) + raw
  {
    FeedFrames(p, fs);
    FeedAppend(p, EncodeAll(fs), raw);
  }

  // ---------- Chunks

  /** The test on the first bytes of a chunk that an idle parser makes. */
  predicate Opens(uuid: Bytes, b: Bytes) {
    |b| >= 21 && b[..16] == uuid
  }

  /** One chunk through XtlsUnpadding. */
  function Unpad(uuid: Bytes, p: Parser, b: Bytes): (Parser, Bytes) {
    if p.Idle() && Opens(uuid, b) then Feed(p.(header := 5), b[16..]) else Feed(p, b)
  }

  function UnpadAll(uuid: Bytes, p: Parser, chunks: seq<Bytes>): (Parser, Bytes)
    decreases |chunks|
  {
    if chunks == [] then (p, [])
    else
      var (q, now) := Unpad(uuid, p, chunks[0]);
      var (r, later) := UnpadAll(uuid, q, chunks[1..]);
      (r, now + later)
  }

  /** No chunk that reaches an idle parser is taken for the opening of a new stream. `p` is the position
      before the chunks. */
  predicate NoReopening(uuid: Bytes, p: Parser, chunks: seq<Bytes>)
    decreases |chunks|
  {
    chunks == [] ||
    (&& !(p.Idle() && Opens(uuid, chunks[0]))
     && NoReopening(uuid, Feed(p, chunks[0]).0, chunks[1..]))
  }

  /** Without such a chunk, how the stream was cut does not matter. */
  lemma {:induction false} ChunksDoNotMatter(uuid: Bytes, p: Parser, chunks: seq<Bytes>)
    requires NoReopening(uuid, p, chunks)
    ensures UnpadAll(uuid, p, chunks) == Feed(p, Flatten(chunks))
    decreases |chunks|
  {
    if chunks != [] {
      ChunksDoNotMatter(uuid, Feed(p, chunks[0]).0, chunks[1..]);
      FeedAppend(p, chunks[0], Flatten(chunks[1..]));
    }
  }

  lemma {:induction false} UnpadAllShrinks(uuid: Bytes, p: Parser, chunks: seq<Bytes>)
    requires p.Valid()
    ensures |UnpadAll(uuid, p, chunks).1| <= |Flatten(chunks)|
    ensures UnpadAll(uuid, p, chunks).0.Valid()
    decreases |chunks|
  {
    if chunks != [] {
      UnpadShrinks(uuid, p, chunks[0]);
      UnpadAllShrinks(uuid, Unpad(uuid, p, chunks[0]).0, chunks[1..]);
    }
  }

  lemma UnpadShrinks(uuid: Bytes, p: Parser, b: Bytes)
    requires p.Valid()
    ensures Unpad(uuid, p, b).0.Valid() && |Unpad(uuid, p, b).1| <= |b|
    ensures p.Idle() && Opens(uuid, b) ==> |Unpad(uuid, p, b).1| < |b|
  {
    FeedKeepsValid(p, b);
    if p.Idle() && Opens(uuid, b) {
      FeedKeepsValid(p.(header := 5), b[16..]);
    }
  }

  /** Cutting one chunk in two changes neither the final position nor the output, as long as the test for
      the user id comes out the same: the first part is long enough for it, and the second part is not itself
      taken for an opening. */
  lemma SplitChunk(uuid: Bytes, p: Parser, a: Bytes, b: Bytes)
    requires p.Idle() ==> (Opens(uuid, a) <==> Opens(uuid, a + b))
    requires Unpad(uuid, p, a).0.Idle() ==> !Opens(uuid, b)
    ensures UnpadAll(uuid, p, [a, b]) == Unpad(uuid, p, a + b)
  {
    var q := Unpad(uuid, p, a).0;
    if p.Idle() && Opens(uuid, a) {
      assert (a + b)[16..] == a[16..] + b;
      FeedAppend(p.(header := 5), a[16..], b);
    } else {
      FeedAppend(p, a, b);
    }
    assert [a, b][1..] == [b] && [b][1..] == [];
    assert Unpad(uuid, q, b) == Feed(q, b);
    assert UnpadAll(uuid, q, [b]).1 == Feed(q, b).1;
  }

  // ---------- XtlsUnpadding

  /** Buffer.Write: what does not fit is dropped. */
  function Put(b: Buffer, data: Bytes): (r: Buffer) {
    if |b| + |data| <= BUFFER_SIZE then b + data else b + data[..BUFFER_SIZE - |b|]
  }

  /** The bulk form of a run of bytes of one kind. */
  lemma FeedRun(p: Parser, bs: Bytes, n: nat)
    requires p.Valid() && p.header == 0 && 0 < n <= |bs|
    requires n <= if p.content > 0 then p.content else p.padding
    ensures var q := if p.content > 0 then p.(content := p.content - n) else p.(padding := p.padding - n);
            var now := if p.content > 0 then bs[..n] else [];
            Feed(p, bs) == (Feed(q.Settle(), bs[n..]).0, now + Feed(q.Settle(), bs[n..]).1)
  {
    assert bs == bs[..n] + bs[n..];
    FeedAppend(p, bs[..n], bs[n..]);
    if p.content > 0 {
      FeedContent(p, bs[..n]);
    } else {
      FeedPadding(p, bs[..n]);
    }
  }

  /** The header branch of the loop. */
  method ReadHeader(p: Parser, data: Byte) returns (q: Parser)
    requires p.Valid() && p.header > 0
    ensures p.Step(data) == (q.Settle(), []) && q.Settle().Valid()
  {
    q := p;
    match p.header {
      case 5 => q := q.(command := data);
      case 4 => q := q.(content := Word(data, 0));
      case 3 => q := q.(content := q.content + data);
      case 2 => q := q.(padding := Word(data, 0));
      case _ => q := q.(padding := q.padding + data);
    }
    q := q.(header := q.header - 1);
  }

  /** The content branch and the padding branch: as much of the run as this chunk holds. */
  method TakeRun(p: Parser, rest: Bytes) returns (q: Parser, len: nat, data: Bytes)
    requires p.Valid() && p.header == 0 && rest != []
    ensures 0 < len <= |rest| && |data| <= len
    ensures Feed(p, rest).0 == Feed(q.Settle(), rest[len..]).0
    ensures Feed(p, rest).1 == data + Feed(q.Settle(), rest[len..]).1
    ensures q.Settle().Valid() && q.header == 0 && 0 <= q.content && 0 <= q.padding
  {
    q := p;
    if p.content > 0 {
      len := if |rest| < p.content then |rest| else p.content;
      data := rest[..len];
      q := q.(content := q.content - len);
    } else {
      len := if |rest| < p.padding then |rest| else p.padding;
      data := [];
      q := q.(padding := q.padding - len);
    }
    FeedRun(p, rest, len);
  }

  /** One turn of the loop: a header byte or a run, and the end of the block if it was its last. */
  method ReadPiece(start: Parser, bytes: Bytes, out: Buffer) returns (p: Parser, rest: Bytes, newbuffer: Buffer)
    requires start.Valid() && !start.Idle() && bytes != [] && |out| + |bytes| <= BUFFER_SIZE
    ensures |rest| < |bytes| && |newbuffer| + |rest| <= BUFFER_SIZE
    ensures p.Valid() && (p.Idle() ==> rest == [])
    ensures Feed(start, bytes).0 == Feed(p, rest).0
    ensures out + Feed(start, bytes).1 == newbuffer + Feed(p, rest).1
  {
    p, rest, newbuffer := start, bytes, out;
    if p.header > 0 {
      var data := rest[0];
      rest := rest[1..];
      p := ReadHeader(p, data);
    } else {
      var len, data;
      p, len, data := TakeRun(p, rest);
      rest := rest[len..];
      Assoc(newbuffer, data, Feed(p.Settle(), rest).1);
      newbuffer := Put(newbuffer, data);
    }
    p, rest, newbuffer := FinishBlock(p, rest, newbuffer);
  }

  /** The end of a turn: if the block is done, another header follows, or everything else is raw. */
  method FinishBlock(read: Parser, bytes: Bytes, out: Buffer) returns (p: Parser, rest: Bytes, newbuffer: Buffer)
    requires read.Settle().Valid() && |out| + |bytes| <= BUFFER_SIZE
    ensures |rest| <= |bytes| && |newbuffer| + |rest| <= BUFFER_SIZE
    ensures p.Valid() && (p.Idle() ==> rest == [])
    ensures Feed(read.Settle(), bytes).0 == Feed(p, rest).0
    ensures out + Feed(read.Settle(), bytes).1 == newbuffer + Feed(p, rest).1
  {
    p, rest, newbuffer := read, bytes, out;
    if p.header <= 0 && p.content <= 0 && p.padding <= 0 {  // this block is done
      if p.command == 0 {
        p := p.(header := 5);
      } else {
        p := Parser(-1, -1, -1, p.command);
        newbuffer, rest := Put(newbuffer, rest), [];
      }
    }
  }

  /** The loop of XtlsUnpadding. */
  method ReadBlocks(b: Buffer, start: Parser) returns (p: Parser, newbuffer: Buffer)
    requires start.Valid() && !start.Idle()
    ensures p == Feed(start, b).0 && newbuffer == Feed(start, b).1
    ensures p.Valid()
  {
    p := start;
    var rest: Bytes := b;
    newbuffer := [];
    while |rest| > 0
      invariant p.Valid() && (p.Idle() ==> rest == [])
      invariant |newbuffer| + |rest| <= BUFFER_SIZE
      invariant Feed(start, b).0 == Feed(p, rest).0
      invariant Feed(start, b).1 == newbuffer + Feed(p, rest).1
      decreases |rest|
    {
      p, rest, newbuffer := ReadPiece(p, rest, newbuffer);
    }
    assert newbuffer + [] == newbuffer;
  }

  method XtlsUnpadding(b: Buffer, uuid: Bytes, start: Parser) returns (p: Parser, newbuffer: Buffer)
    requires start.Valid()
    ensures (p, newbuffer) == Unpad(uuid, start, b)
    ensures p.Valid()
  {
    if start.header == -1 && start.content == -1 && start.padding == -1 {
      if |b| >= 21 && uuid == b[..16] {
        p, newbuffer := ReadBlocks(b[16..], start.(header := 5));
      } else {
        p, newbuffer := start, b;
      }
    } else {
      p, newbuffer := ReadBlocks(b, start);
    }
  }
}
