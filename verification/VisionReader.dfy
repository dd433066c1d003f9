/** VisionReader: when to parse the stream and when to let it through. */
module VisionReader {
  import opened ByteStrings
  import opened TlsFilter
  import opened VisionParser
  import opened VisionState

  /** The reader's verdict after parsing a batch. It looks at the content and padding countdowns and at the
      command, but not at the header countdown. */
  function Judge(r: ReaderLink, p: Parser): ReaderLink {
    if p.content > 0 || p.padding > 0 || p.command == 0 then ReaderLink(true, r.direct, p)
    else if p.command == 1 then ReaderLink(false, r.direct, p)
    else if p.command == 2 then ReaderLink(false, true, p)
    else r.(parser := p)
  }

  /** One ReadMultiBuffer: the chunks the transport delivered, `packets` the filter budget at that moment. */
  function ReadBatch(uuid: Bytes, r: ReaderLink, packets: int, chunks: seq<Bytes>): (ReaderLink, Bytes) {
    if Flatten(chunks) == [] || r.direct then (r, Flatten(chunks))
    else if r.within || packets > 0 then
      var (p, out) := UnpadAll(uuid, r.parser, chunks);
      (Judge(r, p), out)
    else (r, Flatten(chunks))
  }

  /** A command that is none of the three changes nothing about what is parsed from then on. */
  lemma UnknownCommand(uuid: Bytes, r: ReaderLink, packets: int, chunks: seq<Bytes>)
    requires !(0 <= UnpadAll(uuid, r.parser, chunks).0.command <= 2)
    ensures var now := ReadBatch(uuid, r, packets, chunks).0;
            now.direct == r.direct && (r.within ==> now.within)
  {
  }

  function Slots(bs: seq<Buffer>): (r: seq<Slot>) {
    seq(|bs|, i requires 0 <= i < |bs| => Buf(bs[i]))
  }

  lemma EmptyChunks(chunks: seq<Bytes>)
    ensures Flatten(chunks) == [] <==> forall i :: 0 <= i < |chunks| ==> chunks[i] == []
  {
    if chunks != [] {
      EmptyChunks(chunks[1..]);
      assert chunks == [chunks[0]] + chunks[1..];
    }
  }

  method IsEmpty(buffer: seq<Buffer>) returns (empty: bool)
    ensures empty == (Flatten(buffer) == [])
  {
    EmptyChunks(buffer);
    for i := 0 to |buffer|
      invariant forall k :: 0 <= k < i ==> buffer[k] == []
    {
      if |buffer[i]| > 0 {
        return false;
      }
    }
    return true;
  }

  class VisionReader {
    const state: TrafficState
    const isUplink: bool

    constructor (state: TrafficState, isUplink: bool)
      ensures this.state == state && this.isUplink == isUplink
    {
      this.state := state;
      this.isUplink := isUplink;
    }

    /** The unpadding loop: every chunk through XtlsUnpadding, empty results left out. */
    method UnpadBuffers(buffer: seq<Buffer>, start: Parser) returns (mb2: seq<Buffer>, p: Parser)
      requires start.Valid()
      ensures (p, Flatten(mb2)) == UnpadAll(state.userUuid, start, buffer)
      ensures p.Valid()
    {
      mb2 := [];
      p := start;
      assert buffer[0..] == buffer;
      for i := 0 to |buffer|
        invariant p.Valid()
        invariant UnpadAll(state.userUuid, start, buffer).0 == UnpadAll(state.userUuid, p, buffer[i..]).0
        invariant UnpadAll(state.userUuid, start, buffer).1 ==
                  Flatten(mb2) + UnpadAll(state.userUuid, p, buffer[i..]).1
      {
        ghost var before, rest := Flatten(mb2), UnpadAll(state.userUuid, p, buffer[i..]).1;
        assert buffer[i..][1..] == buffer[i + 1..];
        var newbuffer;
        p, newbuffer := XtlsUnpadding(buffer[i], state.userUuid, p);
        ghost var later := UnpadAll(state.userUuid, p, buffer[i + 1..]).1;
        assert before + (newbuffer + later) == (before + newbuffer) + later;
        if |newbuffer| > 0 {
          FlattenSnoc(mb2, newbuffer);
          mb2 := mb2 + [newbuffer];
        }
      }
      assert Flatten(mb2) + [] == Flatten(mb2);
    }

    method ReadMultiBuffer(buffer: seq<Buffer>) returns (out: seq<Buffer>, ghost stale: seq<int>)
      requires state.Reader(isUplink).parser.Valid()
      modifies state`filter, state`inboundReader, state`outboundReader
      ensures (state.Reader(isUplink), Flatten(out)) ==
              ReadBatch(state.userUuid, old(state.Reader(isUplink)), old(state.filter.packets), buffer)
      ensures state.Reader(!isUplink) == old(state.Reader(!isUplink))
      ensures state.Reader(isUplink).parser.Valid()
      ensures Flatten(buffer) == [] || old(state.Reader(isUplink).direct) || old(state.filter.packets) <= 0 ==>
                state.filter == old(state.filter)
      ensures Flatten(buffer) != [] && !old(state.Reader(isUplink).direct) && old(state.filter.packets) > 0 ==>
                |stale| == |out| && state.filter == FilterAll(old(state.filter), Slots(out), stale).0
    {
      stale := [];
      var empty := IsEmpty(buffer);
      if empty {
        return buffer, [];
      }
      var link := state.Reader(isUplink);
      if link.direct {
        return buffer, [];
      }
      out := buffer;
      if link.within || state.filter.packets > 0 {
        var p;
        out, p := UnpadBuffers(buffer, link.parser);
        link := link.(parser := p);
        if p.content > 0 || p.padding > 0 || p.command == 0 {
          link := link.(within := true);
        } else if p.command == 1 {
          link := link.(within := false);
        } else if p.command == 2 {
          link := link.(within := false, direct := true);
        }
        state.SetReader(isUplink, link);
      }
      if state.filter.packets > 0 {
        var f;
        f, stale := XtlsFilterTls(state.filter, Slots(out));
        state.filter := f;
      }
    }
  }

  // ---------- Runs of the reader

  /** One read: the filter budget found, and the chunks delivered. */
  datatype Batch = Batch(packets: int, chunks: seq<Bytes>)

  function Delivered(batches: seq<Batch>): (r: Bytes) {
    if batches == [] then [] else Flatten(batches[0].chunks) + Delivered(batches[1..])
  }

  function ReadRun(uuid: Bytes, r: ReaderLink, batches: seq<Batch>): (ReaderLink, Bytes)
    decreases |batches|
  {
    if batches == [] then (r, [])
    else
      var (q, now) := ReadBatch(uuid, r, batches[0].packets, batches[0].chunks);
      var (s, later) := ReadRun(uuid, q, batches[1..]);
      (s, now + later)
  }

  /** The budget is only ever spent. */
  predicate Spending(batches: seq<Batch>) {
    forall i, j :: 0 <= i < j < |batches| ==> batches[j].packets <= batches[i].packets
  }

  /** The link a reader has when its verdicts so far were about parser position `p`. */
  function LinkAt(p: Parser): ReaderLink {
    var within := p.content > 0 || p.padding > 0 || p.command == 0;
    ReaderLink(within, !within && p.command == 2, p)
  }

  /** A position inside the header of a terminal frame that Judge takes for the end of that frame. */
  predicate Misjudged(p: Parser) {
    !p.Idle() && p.command != 0 && p.content <= 0 && p.padding <= 0
  }

  predicate Parses(p: Parser, packets: int) {
    !LinkAt(p).direct && (LinkAt(p).within || packets > 0)
  }

  /** The condition on how the stream is cut, from position `p` on: no batch begins at a misjudged position
      with nothing left to make the reader parse it, and no chunk of a parsed batch that begins after
      the terminal frame looks like the opening of a stream. */
  predicate CleanCut(uuid: Bytes, p: Parser, batches: seq<Batch>)
    decreases |batches|
  {
    batches == [] ||
    var b := batches[0];
    && (Flatten(b.chunks) != [] ==>
          && !(Misjudged(p) && (p.command == 2 || b.packets <= 0))
          && (Parses(p, b.packets) ==> NoReopening(uuid, p, b.chunks)))
    && CleanCut(uuid, Feed(p, Flatten(b.chunks)).0, batches[1..])
  }

  /** Every header seen along the way carries one of the three known commands. */
  predicate KnownCommands(p: Parser, bs: Bytes)
    decreases |bs|
  {
    0 <= p.command <= 2 && (bs == [] || p.Idle() || KnownCommands(p.Step(bs[0]).0, bs[1..]))
  }

  lemma {:induction false} KnownCommandsAppend(p: Parser, a: Bytes, b: Bytes)
    ensures KnownCommands(p, a + b) <==> KnownCommands(p, a) && KnownCommands(Feed(p, a).0, b)
    decreases |a|
  {
    if a == [] {
      assert a + b == b;
    } else if !p.Idle() {
      assert (a + b)[1..] == a[1..] + b;
      KnownCommandsAppend(p.Step(a[0]).0, a[1..], b);
    }
  }

  /** One batch of a clean cut: the reader outputs what the parser says and its link stays in step. */
  lemma CleanBatch(uuid: Bytes, p: Parser, packets: int, chunks: seq<Bytes>)
    requires p.Valid() && KnownCommands(p, Flatten(chunks))
    requires Flatten(chunks) != [] ==>
      && !(Misjudged(p) && (p.command == 2 || packets <= 0))
      && (Parses(p, packets) ==> NoReopening(uuid, p, chunks))
    ensures var (q, out) := Feed(p, Flatten(chunks));
            ReadBatch(uuid, LinkAt(p), packets, chunks) == (LinkAt(q), out)
  {
    var bs := Flatten(chunks);
    KnownCommandsAppend(p, bs, []);
    assert bs + [] == bs;
    if bs != [] && Parses(p, packets) {
      ChunksDoNotMatter(uuid, p, chunks);
    }
  }

  /** A reader that has stopped parsing passes everything through. */
  lemma {:induction false} RawRun(uuid: Bytes, r: ReaderLink, batches: seq<Batch>)
    requires r.direct || (!r.within && forall i :: 0 <= i < |batches| ==> batches[i].packets <= 0)
    ensures ReadRun(uuid, r, batches).1 == Delivered(batches)
    decreases |batches|
  {
    if batches != [] {
      RawRun(uuid, r, batches[1..]);
    }
  }

  lemma {:induction false} RunShrinks(uuid: Bytes, r: ReaderLink, batches: seq<Batch>)
    requires r.parser.Valid()
    ensures |ReadRun(uuid, r, batches).1| <= |Delivered(batches)|
    decreases |batches|
  {
    if batches != [] {
      UnpadAllShrinks(uuid, r.parser, batches[0].chunks);
      RunShrinks(uuid, ReadBatch(uuid, r, batches[0].packets, batches[0].chunks).0, batches[1..]);
    }
  }

  /** A chunk mistaken for an opening loses bytes, and from there on the true parser is idle. */
  lemma {:induction false} ReopeningLosesBytes(uuid: Bytes, p: Parser, chunks: seq<Bytes>)
    requires p.Valid() && !NoReopening(uuid, p, chunks)
    ensures |UnpadAll(uuid, p, chunks).1| < |Feed(p, Flatten(chunks)).1|
    ensures Feed(p, Flatten(chunks)).0.Idle()
    decreases |chunks|
  {
    var q := Feed(p, chunks[0]).0;
    FeedKeepsValid(p, chunks[0]);
    FeedAppend(p, chunks[0], Flatten(chunks[1..]));
    if p.Idle() && Opens(uuid, chunks[0]) {
      UnpadShrinks(uuid, p, chunks[0]);
      UnpadAllShrinks(uuid, Unpad(uuid, p, chunks[0]).0, chunks[1..]);
    } else {
      ReopeningLosesBytes(uuid, q, chunks[1..]);
    }
  }

  /** The bytes of a terminal header that is read as payload are bytes too many. */
  lemma MisjudgedKeepsBytes(p: Parser, bs: Bytes)
    requires p.Valid() && Misjudged(p) && bs != []
    ensures |Feed(p, bs).1| < |bs|
  {
    assert p.header > 0;
    FeedByte(p, bs[0], bs[1..]);
    assert [bs[0]] + bs[1..] == bs;
    assert p.Step(bs[0]).0.Valid();
    FeedKeepsValid(p.Step(bs[0]).0, bs[1..]);
  }

  /** A batch that begins at a misjudged position goes through raw, header bytes and all. */
  lemma MisjudgedRun(uuid: Bytes, p: Parser, batches: seq<Batch>)
    requires p.Valid() && 0 <= p.command <= 2 && Spending(batches) && batches != []
    requires Misjudged(p) && (p.command == 2 || batches[0].packets <= 0) && Flatten(batches[0].chunks) != []
    ensures |ReadRun(uuid, LinkAt(p), batches).1| > |Feed(p, Delivered(batches)).1|
  {
    RawRun(uuid, LinkAt(p), batches);
    MisjudgedKeepsBytes(p, Delivered(batches));
  }

  lemma ReopenedRun(uuid: Bytes, p: Parser, batches: seq<Batch>)
    requires p.Valid() && batches != []
    requires Parses(p, batches[0].packets) && !NoReopening(uuid, p, batches[0].chunks)
    requires Flatten(batches[0].chunks) != []
    ensures |ReadRun(uuid, LinkAt(p), batches).1| < |Feed(p, Delivered(batches)).1|
  {
    var b := batches[0];
    ReopeningLosesBytes(uuid, p, b.chunks);
    UnpadAllShrinks(uuid, p, b.chunks);
    RunShrinks(uuid, ReadBatch(uuid, LinkAt(p), b.packets, b.chunks).0, batches[1..]);
    FeedAppend(p, Flatten(b.chunks), Delivered(batches[1..]));
  }

  lemma SameTail(a: Bytes, b: Bytes, c: Bytes)
    ensures a + b == a + c <==> b == c
  {
    if a + b == a + c {
      assert b == (a + b)[|a|..] == (a + c)[|a|..] == c;
    }
  }

  /** Exactly when a run of the reader outputs what the stream says. */
  lemma {:induction false} ReaderExact(uuid: Bytes, p: Parser, batches: seq<Batch>)
    requires p.Valid() && KnownCommands(p, Delivered(batches)) && Spending(batches)
    ensures ReadRun(uuid, LinkAt(p), batches).1 == Feed(p, Delivered(batches)).1
            <==> CleanCut(uuid, p, batches)
    decreases |batches|
  {
    if batches != [] {
      var b, rest := batches[0], batches[1..];
      var bs := Flatten(b.chunks);
      if bs != [] && Misjudged(p) && (p.command == 2 || b.packets <= 0) {
        MisjudgedRun(uuid, p, batches);
      } else if bs != [] && Parses(p, b.packets) && !NoReopening(uuid, p, b.chunks) {
        ReopenedRun(uuid, p, batches);
      } else {
        KnownCommandsAppend(p, bs, Delivered(rest));
        CleanBatch(uuid, p, b.packets, b.chunks);
        FeedKeepsValid(p, bs);
        FeedAppend(p, bs, Delivered(rest));
        var q := Feed(p, bs).0;
        ReaderExact(uuid, q, rest);
        SameTail(Feed(p, bs).1, ReadRun(uuid, LinkAt(q), rest).1, Feed(q, Delivered(rest)).1);
      }
    }
  }

  /** On a clean cut the reader's link also stays in step with the stream. */
  lemma {:induction false} CleanRun(uuid: Bytes, p: Parser, batches: seq<Batch>)
    requires p.Valid() && KnownCommands(p, Delivered(batches)) && CleanCut(uuid, p, batches)
    ensures ReadRun(uuid, LinkAt(p), batches).0 == LinkAt(Feed(p, Delivered(batches)).0)
    decreases |batches|
  {
    if batches != [] {
      var b, rest := batches[0], batches[1..];
      var bs := Flatten(b.chunks);
      KnownCommandsAppend(p, bs, Delivered(rest));
      CleanBatch(uuid, p, b.packets, b.chunks);
      FeedKeepsValid(p, bs);
      FeedAppend(p, bs, Delivered(rest));
      CleanRun(uuid, Feed(p, bs).0, rest);
    }
  }
}
