/** The two ends of a Vision stream together: what is written comes out, however the wire is cut. */
module VisionStream {
  import opened ByteStrings
  import opened VisionFrame
  import opened VisionParser
  import opened VisionState
  import opened VisionReader
  import opened VisionWriter

  // ---------- The commands a writer's frames carry are all known

  lemma {:induction false} KnownBody(p: Parser, bs: Bytes)
    requires 0 <= p.command <= 2 && p.header == 0 && 0 <= p.content && 0 <= p.padding
    requires 0 < |bs| <= p.content + p.padding
    ensures KnownCommands(p, bs)
    decreases |bs|
  {
    var q := p.Step(bs[0]).0;
    if |bs| > 1 {
      KnownBody(q, bs[1..]);
    }
  }

  lemma KnownHeader(p: Parser, f: Frame)
    requires p.AtHeader() && 0 <= p.command <= 2 && 0 <= f.command <= 2
    ensures KnownCommands(p, Header(f))
  {
    var h := Header(f);
    var p1 := p.Step(h[0]).0;
    var p2 := p1.Step(h[1]).0;
    var p3 := p2.Step(h[2]).0;
    var p4 := p3.Step(h[3]).0;
    var p5 := p4.Step(h[4]).0;
    assert h[1..][1..] == h[2..] && h[2..][1..] == h[3..] && h[3..][1..] == h[4..] && h[4..][1..] == [];
    assert KnownCommands(p5, []);
    assert KnownCommands(p4, h[4..]);
    assert KnownCommands(p3, h[3..]);
    assert KnownCommands(p2, h[2..]);
    assert KnownCommands(p1, h[1..]);
  }

  lemma KnownFrame(p: Parser, f: Frame)
    requires p.AtHeader() && 0 <= p.command <= 2 && 0 <= f.command <= 2
    ensures KnownCommands(p, Encode(f))
  {
    var body := f.content + Zeros(f.padding);
    KnownHeader(p, f);
    FeedHeader(p, f);
    KnownCommandsAppend(p, Header(f), body);
    assert Encode(f) == Header(f) + body;
    if body != [] {
      KnownBody(Parser(0, |f.content|, f.padding, f.command), body);
    }
  }

  lemma {:induction false} KnownStream(p: Parser, fs: seq<Frame>, raw: Bytes)
    requires p.AtHeader() && 0 <= p.command <= 2 && Disciplined(fs)
    requires Terminated(fs) || raw == []
    ensures KnownCommands(p, EncodeAll(fs) + raw)
    decreases |fs|
  {
    if fs == [] {
      assert EncodeAll(fs) + raw == [];
    } else {
      var rest := EncodeAll(fs[1..]) + raw;
      Assoc(Encode(fs[0]), EncodeAll(fs[1..]), raw);
      KnownFrame(p, fs[0]);
      FeedFrame(p, fs[0]);
      KnownCommandsAppend(p, Encode(fs[0]), rest);
      if fs[0].command == 0 {
        KnownStream(Parser(5, 0, 0, 0), fs[1..], raw);
      }
    }
  }

  // ---------- The opening of a stream

  function StripChunks(chunks: seq<Bytes>): (r: seq<Bytes>)
    ensures r != [] ==> r[0] != []
    ensures Flatten(r) == Flatten(chunks)
  {
    if chunks == [] || chunks[0] != [] then chunks else StripChunks(chunks[1..])
  }

  /** The reads without the empty chunks and reads in front. */
  function Stripped(batches: seq<Batch>): (r: seq<Batch>)
    ensures r != [] ==> r[0].chunks != [] && r[0].chunks[0] != []
    ensures Delivered(r) == Delivered(batches)
  {
    if batches == [] then []
    else
      var chunks := StripChunks(batches[0].chunks);
      if chunks == [] then Stripped(batches[1..]) else [batches[0].(chunks := chunks)] + batches[1..]
  }

  lemma {:induction false} StripChunksSame(uuid: Bytes, p: Parser, chunks: seq<Bytes>)
    ensures UnpadAll(uuid, p, StripChunks(chunks)) == UnpadAll(uuid, p, chunks)
    decreases |chunks|
  {
    if chunks != [] && chunks[0] == [] {
      StripChunksSame(uuid, p, chunks[1..]);
      var later := UnpadAll(uuid, p, chunks[1..]).1;
      assert [] + later == later;
    }
  }

  /** They change nothing. */
  lemma {:induction false} StrippedSame(uuid: Bytes, r: ReaderLink, batches: seq<Batch>)
    ensures ReadRun(uuid, r, Stripped(batches)) == ReadRun(uuid, r, batches)
    decreases |batches|
  {
    if batches != [] {
      StripChunksSame(uuid, r.parser, batches[0].chunks);
      if StripChunks(batches[0].chunks) == [] {
        StrippedSame(uuid, r, batches[1..]);
        var later := ReadRun(uuid, r, batches[1..]).1;
        assert [] + later == later;
      } else {
        assert Stripped(batches)[1..] == batches[1..];
      }
    }
  }

  lemma {:induction false} StrippedSpending(batches: seq<Batch>)
    requires Spending(batches)
    ensures Spending(Stripped(batches))
    decreases |batches|
  {
    if batches != [] {
      var rest := batches[1..];
      assert Spending(rest) by {
        assert forall k :: 0 <= k < |rest| ==> rest[k] == batches[k + 1];
      }
      StrippedSpending(rest);
      var s := Stripped(batches);
      if StripChunks(batches[0].chunks) != [] {
        assert forall k :: 0 <= k < |s| ==> s[k].packets == batches[k].packets;
      }
    }
  }

  /** The first chunk that is not empty holds the user id and at least one header's worth more. */
  predicate OpensWith(uuid: Bytes, batches: seq<Batch>) {
    Stripped(batches) != [] && Opens(uuid, Stripped(batches)[0].chunks[0])
  }

  /** The reads without the user id. */
  function AfterUuid(batches: seq<Batch>): seq<Batch>
    requires Stripped(batches) != [] && |Stripped(batches)[0].chunks[0]| >= 16
  {
    CutUuid(Stripped(batches))
  }

  function CutUuid(batches: seq<Batch>): seq<Batch>
    requires batches != [] && batches[0].chunks != [] && |batches[0].chunks[0]| >= 16
  {
    var b := batches[0];
    [b.(chunks := [b.chunks[0][16..]] + b.chunks[1..])] + batches[1..]
  }

  lemma ReadCut(uuid: Bytes, batches: seq<Batch>)
    requires |uuid| == 16 && batches != [] && batches[0].chunks != [] && Opens(uuid, batches[0].chunks[0])
    ensures Delivered(batches) == uuid + Delivered(CutUuid(batches))
    ensures ReadRun(uuid, LinkAt(FRESH), batches) == ReadRun(uuid, LinkAt(OPENED), CutUuid(batches))
  {
    var c, cs := batches[0].chunks[0], batches[0].chunks[1..];
    var cs' := [c[16..]] + cs;
    var rest := CutUuid(batches);
    assert rest[1..] == batches[1..] && cs'[1..] == cs;
    assert c == uuid + c[16..];
    Assoc(uuid, c[16..], Flatten(cs));
    Assoc(uuid, Flatten(cs'), Delivered(batches[1..]));
    assert Flatten(cs') != [];
    assert UnpadAll(uuid, FRESH, batches[0].chunks) == UnpadAll(uuid, OPENED, cs');
  }

  lemma ReadOpening(uuid: Bytes, batches: seq<Batch>)
    requires |uuid| == 16 && OpensWith(uuid, batches)
    ensures Delivered(batches) == uuid + Delivered(AfterUuid(batches))
    ensures ReadRun(uuid, LinkAt(FRESH), batches) == ReadRun(uuid, LinkAt(OPENED), AfterUuid(batches))
  {
    StrippedSame(uuid, LinkAt(FRESH), batches);
    ReadCut(uuid, Stripped(batches));
  }

  // ---------- End to end

  /** A reader for the stream of a writer outputs exactly what was written if, and only if, the wire is cleanly
      cut. The wire may be cut into chunks and batches anywhere after the opening, and the two ends may find
      any filter budgets that are only ever spent. */
  lemma StreamExact(uuid: Bytes, h: History, link: WriterLink, rawConnection: bool, batches: seq<Batch>)
    requires |uuid| == 16 && h.SoundFrames(link, rawConnection) && h.SoundBytes(uuid)
    requires Delivered(batches) == h.wire && OpensWith(uuid, batches) && Spending(batches)
    ensures ReadRun(uuid, ReaderLink(true, false, FRESH), batches).1 == h.written
            <==> CleanCut(uuid, OPENED, AfterUuid(batches))
  {
    var tail := ReadStream(uuid, h, link, rawConnection, batches);
    ExactRest(uuid, AfterUuid(batches), tail, h.written);
  }

  lemma ExactRest(uuid: Bytes, rest: seq<Batch>, tail: Bytes, written: Bytes)
    requires Spending(rest) && KnownCommands(OPENED, Delivered(rest))
    requires tail == [] && Feed(OPENED, Delivered(rest) + tail).1 == written
    ensures ReadRun(uuid, LinkAt(OPENED), rest).1 == written <==> CleanCut(uuid, OPENED, rest)
  {
    assert Delivered(rest) + [] == Delivered(rest);
    ReaderExact(uuid, OPENED, rest);
  }

  lemma CutPrefix(prefix: Bytes, part: Bytes, all: Bytes)
    requires prefix + part <= prefix + all
    ensures part <= all && all == part + all[|part|..]
    ensures prefix + part == prefix + all ==> all[|part|..] == []
  {
    assert part == (prefix + part)[|prefix|..];
    assert all == (prefix + all)[|prefix|..];
  }

  /** What is known about any part of the wire: the reader sees a part of the frame stream, and `tail` is still
      to come. */
  lemma ReadStream(uuid: Bytes, h: History, link: WriterLink, rawConnection: bool, batches: seq<Batch>)
    returns (tail: Bytes)
    requires |uuid| == 16 && h.SoundFrames(link, rawConnection) && h.SoundBytes(uuid)
    requires Delivered(batches) <= h.wire && OpensWith(uuid, batches) && Spending(batches)
    ensures Delivered(batches) == h.wire ==> tail == []
    ensures var rest := AfterUuid(batches);
            && Spending(rest) && KnownCommands(OPENED, Delivered(rest))
            && Feed(OPENED, Delivered(rest) + tail).1 == h.written
            && ReadRun(uuid, ReaderLink(true, false, FRESH), batches) == ReadRun(uuid, LinkAt(OPENED), rest)
  {
    var rest := AfterUuid(batches);
    var stream := EncodeAll(h.frames) + h.raw;
    ReadOpening(uuid, batches);
    SpendingRest(batches);
    WireIsStream(uuid, h, link, rawConnection);
    tail := stream[|Delivered(rest)|..];
    CutPrefix(uuid, Delivered(rest), stream);
    KnownStream(OPENED, h.frames, h.raw);
    KnownCommandsAppend(OPENED, Delivered(rest), tail);
    FeedStream(OPENED, h.frames, h.raw);
  }

  lemma SpendingRest(batches: seq<Batch>)
    requires Spending(batches) && Stripped(batches) != [] && |Stripped(batches)[0].chunks[0]| >= 16
    ensures Spending(AfterUuid(batches))
  {
    var s, rest := Stripped(batches), AfterUuid(batches);
    StrippedSpending(batches);
    assert forall k :: 0 <= k < |rest| ==> rest[k].packets == s[k].packets;
  }

  lemma WireIsStream(uuid: Bytes, h: History, link: WriterLink, rawConnection: bool)
    requires h.SoundFrames(link, rawConnection) && h.SoundBytes(uuid)
    requires h.wire != []
    ensures h.frames != [] && h.wire == uuid + (EncodeAll(h.frames) + h.raw)
  {
    Assoc(uuid, EncodeAll(h.frames), h.raw);
  }

  /** While the stream is still under way, a clean cut of any part of the wire gives a part of what was written:
      nothing false is ever output. */
  lemma StreamPrefix(uuid: Bytes, h: History, link: WriterLink, rawConnection: bool, batches: seq<Batch>)
    requires |uuid| == 16 && h.SoundFrames(link, rawConnection) && h.SoundBytes(uuid)
    requires Delivered(batches) <= h.wire && OpensWith(uuid, batches) && Spending(batches)
    requires CleanCut(uuid, OPENED, AfterUuid(batches))
    ensures ReadRun(uuid, ReaderLink(true, false, FRESH), batches).1 <= h.written
  {
    var rest := AfterUuid(batches);
    var tail := ReadStream(uuid, h, link, rawConnection, batches);
    FeedAppend(OPENED, Delivered(rest), tail);
    ReaderExact(uuid, OPENED, rest);
  }

  lemma DirectSwitch(uuid: Bytes, fs: seq<Frame>, raw: Bytes, rest: seq<Batch>)
    requires Disciplined(fs) && (raw != [] ==> Terminated(fs))
    requires Delivered(rest) == EncodeAll(fs) + raw && KnownCommands(OPENED, Delivered(rest))
    requires CleanCut(uuid, OPENED, rest)
    ensures ReadRun(uuid, LinkAt(OPENED), rest).0.direct <==> TerminatedDirect(fs)
  {
    CleanRun(uuid, OPENED, rest);
    StreamCommand(fs, raw);
  }

  /** Both ends agree on direct copy: over a cleanly cut whole wire the reader has switched exactly if the writer
      has armed or made its own switch. */
  lemma DirectCopyAgrees(uuid: Bytes, h: History, link: WriterLink, rawConnection: bool, batches: seq<Batch>)
    requires |uuid| == 16 && h.SoundFrames(link, rawConnection) && h.SoundBytes(uuid)
    requires Delivered(batches) == h.wire && OpensWith(uuid, batches) && Spending(batches)
    requires CleanCut(uuid, OPENED, AfterUuid(batches))
    ensures ReadRun(uuid, ReaderLink(true, false, FRESH), batches).0.direct <==> link.direct || rawConnection
  {
    var rest := AfterUuid(batches);
    var tail := ReadStream(uuid, h, link, rawConnection, batches);
    ReadOpening(uuid, batches);
    WireIsStream(uuid, h, link, rawConnection);
    CutPrefix(uuid, Delivered(rest), EncodeAll(h.frames) + h.raw);
    assert Delivered(rest) + [] == Delivered(rest);
    DirectSwitch(uuid, h.frames, h.raw, rest);
  }

  /** Behind the stream the parser calls for direct copy exactly if the terminal frame did. */
  lemma StreamCommand(fs: seq<Frame>, raw: Bytes)
    requires Disciplined(fs) && (raw != [] ==> Terminated(fs))
    ensures LinkAt(Feed(OPENED, EncodeAll(fs) + raw).0).direct <==> TerminatedDirect(fs)
  {
    FeedFrames(OPENED, fs);
    FeedAppend(OPENED, EncodeAll(fs), raw);
    if !Terminated(fs) {
      LastCommand(OPENED, fs);
    }
  }

  /** After frames of which none is terminal the current command is Continue. */
  lemma {:induction false} LastCommand(p: Parser, fs: seq<Frame>)
    requires p.AtHeader() && p.command == 0 && Disciplined(fs) && !Terminated(fs)
    ensures Feed(p, EncodeAll(fs)).0.command == 0
    decreases |fs|
  {
    if fs != [] {
      FeedFrame(p, fs[0]);
      FeedAppend(p, Encode(fs[0]), EncodeAll(fs[1..]));
      LastCommand(Parser(5, 0, 0, 0), fs[1..]);
    }
  }

  // ---------- A stream that is not opened

  /** A first chunk too short for the test on it, in a stream no other chunk of which looks like an opening,
      leaves the parser idle for good: the wire itself is output. */
  lemma {:induction false} NeverOpened(uuid: Bytes, batches: seq<Batch>)
    requires forall i, j :: 0 <= i < |batches| && 0 <= j < |batches[i].chunks| ==> !Opens(uuid, batches[i].chunks[j])
    ensures ReadRun(uuid, LinkAt(FRESH), batches) == (LinkAt(FRESH), Delivered(batches))
    decreases |batches|
  {
    if batches != [] {
      NeverOpenedChunks(uuid, batches[0].chunks);
      NeverOpened(uuid, batches[1..]);
    }
  }

  lemma {:induction false} NeverOpenedChunks(uuid: Bytes, chunks: seq<Bytes>)
    requires forall j :: 0 <= j < |chunks| ==> !Opens(uuid, chunks[j])
    ensures UnpadAll(uuid, FRESH, chunks) == (FRESH, Flatten(chunks))
  {
    if chunks != [] {
      NeverOpenedChunks(uuid, chunks[1..]);
    }
  }

  /** If only the first chunk that is not empty can look like an opening, the stream comes out right exactly if it
      does (and the cut is clean). */
  lemma OpeningExact(uuid: Bytes, h: History, link: WriterLink, rawConnection: bool, batches: seq<Batch>)
    requires |uuid| == 16 && h.SoundFrames(link, rawConnection) && h.SoundBytes(uuid)
    requires Delivered(batches) == h.wire != [] && Spending(batches)
    requires var s := Stripped(batches);
             forall i, j :: 0 <= i < |s| && 0 <= j < |s[i].chunks| && (i, j) != (0, 0) ==> !Opens(uuid, s[i].chunks[j])
    ensures ReadRun(uuid, ReaderLink(true, false, FRESH), batches).1 == h.written
            <==> OpensWith(uuid, batches) && CleanCut(uuid, OPENED, AfterUuid(batches))
  {
    if OpensWith(uuid, batches) {
      StreamExact(uuid, h, link, rawConnection, batches);
    } else {
      StrippedSame(uuid, LinkAt(FRESH), batches);
      NeverOpened(uuid, Stripped(batches));
      WireIsStream(uuid, h, link, rawConnection);
      StreamIsLonger(h.frames);
    }
  }

  lemma {:induction false} StreamIsLonger(fs: seq<Frame>)
    ensures |Contents(fs)| <= |EncodeAll(fs)|
  {
    if fs != [] {
      StreamIsLonger(fs[1..]);
    }
  }

  /** A chunk of at least 21 bytes, the first 16 of which are the user id. */
  predicate LooksLikeOpening(uuid: Bytes, chunk: Bytes) {
    |chunk| >= 21 && chunk[..16] == uuid
  }

  lemma FirstOfWire(uuid: Bytes, wire: Bytes, chunk: Bytes, rest: Bytes)
    requires |uuid| == 16 && uuid <= wire && wire == chunk + rest
    ensures Opens(uuid, chunk) <==> |chunk| >= 21
  {
    if |chunk| >= 21 {
      assert chunk[..16] == wire[..16] == uuid;
    }
  }

  lemma FirstDelivered(batches: seq<Batch>) returns (rest: Bytes)
    requires batches != [] && batches[0].chunks != []
    ensures Delivered(batches) == batches[0].chunks[0] + rest
  {
    var c, cs := batches[0].chunks[0], batches[0].chunks[1..];
    rest := Flatten(cs) + Delivered(batches[1..]);
    Assoc(c, Flatten(cs), Delivered(batches[1..]));
  }

  /** So everything hangs on the length of the first chunk: if no later one looks like an opening, the stream comes out right
      exactly if the first chunk that is not empty has at least 21 bytes (and the cut is clean behind the user id). */
  lemma FirstChunkDecides(uuid: Bytes, h: History, link: WriterLink, rawConnection: bool, batches: seq<Batch>)
    requires |uuid| == 16 && h.SoundFrames(link, rawConnection) && h.SoundBytes(uuid)
    requires Delivered(batches) == h.wire != [] && Spending(batches)
    requires var s := Stripped(batches);
             forall i, j :: 0 <= i < |s| && 0 <= j < |s[i].chunks| && (i, j) != (0, 0) ==> !LooksLikeOpening(uuid, s[i].chunks[j])
    ensures Stripped(batches) != [] &&
            (ReadRun(uuid, ReaderLink(true, false, FRESH), batches).1 == h.written
             <==> |Stripped(batches)[0].chunks[0]| >= 21 && CleanCut(uuid, OPENED, AfterUuid(batches)))
  {
    var s := Stripped(batches);
    assert s != [];
    WireIsStream(uuid, h, link, rawConnection);
    var rest := FirstDelivered(s);
    FirstOfWire(uuid, h.wire, s[0].chunks[0], rest);
    forall i, j | 0 <= i < |s| && 0 <= j < |s[i].chunks| && (i, j) != (0, 0)
      ensures !Opens(uuid, s[i].chunks[j])
    {
      assert !LooksLikeOpening(uuid, s[i].chunks[j]);
    }
    OpeningExact(uuid, h, link, rawConnection, batches);
  }
}
