/** One end of a Vision connection: a reader and a writer of opposite directions on one shared state. */
module VisionEndpoint {
  import opened ByteStrings
  import opened FilterRuns
  import opened TlsFilter
  import opened VisionFrame
  import opened VisionParser
  import opened VisionReader
  import opened VisionState
  import opened VisionStream
  import opened VisionWriter

  /** A run of reads and one read more. */
  lemma {:induction false} ReadRunSnoc(uuid: Bytes, r: ReaderLink, batches: seq<Batch>, b: Batch)
    ensures var (q, before) := ReadRun(uuid, r, batches);
            var (s, now) := ReadBatch(uuid, q, b.packets, b.chunks);
            ReadRun(uuid, r, batches + [b]) == (s, before + now)
    decreases |batches|
  {
    if batches == [] {
      assert [b][1..] == [] && [] + [b] == [b];
      var now := ReadBatch(uuid, r, b.packets, b.chunks).1;
      assert now + [] == now == [] + now;
    } else {
      var q, first := ReadBatch(uuid, r, batches[0].packets, batches[0].chunks).0,
                      ReadBatch(uuid, r, batches[0].packets, batches[0].chunks).1;
      assert (batches + [b])[1..] == batches[1..] + [b];
      ReadRunSnoc(uuid, q, batches[1..], b);
      var (s, later) := ReadRun(uuid, q, batches[1..]);
      Assoc(first, later, ReadBatch(uuid, s, b.packets, b.chunks).1);
    }
  }

  /** The budgets found so far were only spent, and what is left is not more. */
  predicate SpentTo(batches: seq<Batch>, packets: int) {
    Spending(batches) && forall i :: 0 <= i < |batches| ==> packets <= batches[i].packets
  }

  /** The link of a reader and what it gave are those of its run. */
  predicate InStep(uuid: Bytes, r: ReaderLink, got: Bytes, batches: seq<Batch>, packets: int) {
    r.parser.Valid() && (r, got) == ReadRun(uuid, ReaderLink(true, false, FRESH), batches) && SpentTo(batches, packets)
  }

  lemma SpentMore(uuid: Bytes, r: ReaderLink, got: Bytes, batches: seq<Batch>, b: Batch, packets: int, q: ReaderLink, now: Bytes)
    requires InStep(uuid, r, got, batches, b.packets) && packets <= b.packets
    requires q.parser.Valid() && (q, now) == ReadBatch(uuid, r, b.packets, b.chunks)
    ensures InStep(uuid, q, got + now, batches + [b], packets)
  {
    ReadRunSnoc(uuid, ReaderLink(true, false, FRESH), batches, b);
  }

  lemma SpentLess(uuid: Bytes, r: ReaderLink, got: Bytes, batches: seq<Batch>, packets: int, less: int)
    requires InStep(uuid, r, got, batches, packets) && less <= packets
    ensures InStep(uuid, r, got, batches, less)
  {
  }

  /** One call more that the filter was run for, or that found no budget. */
  lemma WatchMore(f: Filter, mbs: seq<seq<Slot>>, stales: seq<seq<int>>, mb: seq<Slot>, stale: seq<int>)
    requires Aligned(mbs, stales) && |stale| == |mb|
    ensures Aligned(mbs + [mb], stales + [stale])
    ensures var g := FilterRun(f, mbs, stales);
            FilterRun(f, mbs + [mb], stales + [stale]) == if g.packets > 0 then FilterAll(g, mb, stale).0 else g
  {
    assert (mbs + [mb])[..|mbs|] == mbs && (stales + [stale])[..|mbs|] == stales;
  }

  /** A call of either direction never gives budget back. */
  lemma FilterSpends(f: Filter, g: Filter, mb: seq<Slot>, stale: seq<int>)
    requires Consistent(f) && |stale| == |mb|
    requires g == if f.packets > 0 then FilterAll(f, mb, stale).0 else f
    ensures Consistent(g) && g.packets <= f.packets
  {
    if f.packets > 0 {
      FilterIsSafe(f, mb, stale);
    }
  }

  predicate NoHello(shown: seq<seq<Slot>>) {
    !SeesServerHello(Joined(shown)) && !SeesClientHello(Joined(shown))
  }

  lemma QuietBudget(shown: seq<seq<Slot>>, stales: seq<seq<int>>)
    requires Aligned(shown, stales)
    ensures NoHello(shown) ==>
              var f := FilterRun(FRESH_FILTER, shown, stales);
              !f.tls && (f.tls12 || f.packets > 1 <==> CountBuffers(Joined(shown)) < 7)
  {
    if NoHello(shown) {
      NoHelloRunsOut(shown, stales);
    }
  }

  lemma SomePiece(mb: seq<Slot>)
    ensures mb != [] ==> Reshaped(mb) != []
  {
  }

  class Endpoint {
    const state: TrafficState
    const reader: VisionReader
    const writer: VisionWriter
    /** The reads so far, and what they gave. */
    ghost var arrived: seq<Batch>
    ghost var got: Bytes
    /** What the filter was shown by calls of both directions, and the pooled bytes it met there. */
    ghost var shown: seq<seq<Slot>>
    ghost var stales: seq<seq<int>>

    ghost predicate ReaderSide()
      reads this, state
    {
      && reader.state == state && reader.isUplink == !writer.isUplink
      && InStep(state.userUuid, state.Reader(reader.isUplink), got, arrived, state.filter.packets)
    }

    /** The filter is that of a new connection after these calls. */
    ghost predicate Watching()
      reads this, state
    {
      Aligned(shown, stales) && state.filter == FilterRun(FRESH_FILTER, shown, stales)
    }

    ghost predicate Valid()
      reads this, state, writer
    {
      writer.state == state && writer.Valid() && ReaderSide() && Watching()
    }

    constructor (uuid: Bytes, isUplink: bool, testseed: seq<Uint32>)
      requires |uuid| == 16
      ensures Valid() && fresh(state) && fresh(reader) && fresh(writer)
      ensures state.userUuid == uuid && reader.isUplink == isUplink && arrived == [] && got == [] && shown == []
      ensures writer.history == History(uuid, [], [], [], [])
    {
      var st := new TrafficState(uuid);
      state := st;
      reader := new VisionReader(st, isUplink);
      writer := new VisionWriter(st, !isUplink, testseed);
      arrived, got := [], [];
      shown, stales := [], [];
    }

    /** A read spends the budget and does not disturb the writer. The filter is shown what came out, unless the reader
        copies directly or nothing came in. */
    method Read(buffer: seq<Buffer>) returns (out: seq<Buffer>)
      requires Valid()
      modifies this`arrived, this`got, this`shown, this`stales, state`filter, state`inboundReader, state`outboundReader
      ensures Valid() && writer.history == old(writer.history)
      ensures arrived == old(arrived) + [Batch(old(state.filter.packets), buffer)]
      ensures got == old(got) + Flatten(out)
      ensures shown == old(shown) + if Flatten(buffer) == [] || old(state.Reader(reader.isUplink).direct) then [] else [Slots(out)]
    {
      ghost var b, before := Batch(state.filter.packets, buffer), state.Reader(reader.isUplink);
      out := Receive(buffer);
      SpentMore(state.userUuid, before, got, arrived, b, state.filter.packets, state.Reader(reader.isUplink), Flatten(out));
      arrived, got := arrived + [b], got + Flatten(out);
    }

    method Receive(buffer: seq<Buffer>) returns (out: seq<Buffer>)
      requires reader.state == state && state.Reader(reader.isUplink).parser.Valid() && Watching()
      requires writer.state == state && writer.Valid()
      modifies this`shown, this`stales, state`filter, state`inboundReader, state`outboundReader
      ensures writer.Valid() && writer.history == old(writer.history)
      ensures Watching() && state.filter.packets <= old(state.filter.packets)
      ensures state.Reader(reader.isUplink).parser.Valid()
      ensures (state.Reader(reader.isUplink), Flatten(out)) ==
              ReadBatch(state.userUuid, old(state.Reader(reader.isUplink)), old(state.filter.packets), buffer)
      ensures shown == old(shown) + if Flatten(buffer) == [] || old(state.Reader(reader.isUplink).direct) then [] else [Slots(out)]
    {
      ghost var stale;
      ghost var f, hidden := state.filter, Flatten(buffer) == [] || state.Reader(reader.isUplink).direct;
      out, stale := reader.ReadMultiBuffer(buffer);
      if !hidden {
        Show(f, Slots(out), stale);
      } else {
        assert shown + [] == shown;
      }
    }

    /** The record of one more call that was shown to the filter. */
    ghost method Show(f: Filter, mb: seq<Slot>, stale: seq<int>)
      requires Aligned(shown, stales) && f == FilterRun(FRESH_FILTER, shown, stales) && Consistent(f)
      requires f.packets > 0 ==> |stale| == |mb|
      requires state.filter == if f.packets > 0 then FilterAll(f, mb, stale).0 else f
      modifies this`shown, this`stales
      ensures Watching() && shown == old(shown) + [mb]
      ensures Consistent(state.filter) && state.filter.packets <= f.packets
    {
      var pasts := if f.packets > 0 then stale else seq(|mb|, _ => 0);
      WatchMore(FRESH_FILTER, shown, stales, mb, pasts);
      FilterSpends(f, state.filter, mb, pasts);
      shown, stales := shown + [mb], stales + [pasts];
    }

    /** A write does not disturb the reader. The filter is shown every call. As long as no call of either direction has shown
        a TLS hello, a write that frames anything leaves padding on exactly if fewer than seven buffers have been shown. */
    method Write(mb: seq<Slot>) returns (panics: bool, out: seq<Slot>, ghost fs: seq<Frame>, ghost tail: Bytes)
      requires Valid() && (state.Writer(writer.isUplink).isPadding ==> mb == [Nil] || AllBuffers(mb))
      modifies this`shown, this`stales, writer, state`filter, state`inboundWriter, state`outboundWriter
      ensures !panics ==> Valid() && writer.history == old(writer.history).Extend(fs, tail) && shown == old(shown) + [mb]
      ensures !panics ==> writer.history.written == old(writer.history.written) + Payload(mb)
      ensures !panics ==> writer.history.wire == old(writer.history.wire) + Payload(out)
      ensures !panics && old(state.Writer(writer.isUplink).isPadding) && mb != [] && mb != [Nil] && NoHello(shown) ==>
                (state.Writer(writer.isUplink).isPadding <==> CountBuffers(Joined(shown)) < 7)
    {
      ghost var stale;
      ghost var f := state.filter;
      panics, out, fs, tail, stale := Send(mb);
      Show(f, mb, stale);
      QuietBudget(shown, stales);
      SpentLess(state.userUuid, state.Reader(reader.isUplink), got, arrived, f.packets, state.filter.packets);
    }

    method Send(mb: seq<Slot>)
      returns (panics: bool, out: seq<Slot>, ghost fs: seq<Frame>, ghost tail: Bytes, ghost stale: seq<int>)
      requires writer.state == state && writer.Valid()
      requires state.Writer(writer.isUplink).isPadding ==> mb == [Nil] || AllBuffers(mb)
      modifies writer, state`filter, state`inboundWriter, state`outboundWriter
      ensures !panics ==> writer.Valid() && writer.history == old(writer.history).Extend(fs, tail)
      ensures !panics ==> writer.history.written == old(writer.history.written) + Payload(mb)
      ensures !panics ==> writer.history.wire == old(writer.history.wire) + Payload(out)
      ensures |stale| == |mb| && state.filter ==
                if old(state.filter.packets) > 0 then FilterAll(old(state.filter), mb, stale).0
                else old(state.filter)
      ensures !panics && old(state.Writer(writer.isUplink).isPadding) && mb != [] && mb != [Nil] && !state.filter.tls ==>
                (state.Writer(writer.isUplink).isPadding <==> state.filter.tls12 || state.filter.packets > 1)
    {
      panics, out, fs, tail, stale := writer.WriteMultiBuffer(mb);
      SomePiece(mb);
    }
  }

  /** What an end has left of its budget: eight packets less one for every buffer that calls of both directions have shown,
      and nothing once one of these has settled a server hello. */
  lemma BudgetOfEnd(e: Endpoint)
    requires e.Valid()
    ensures var all, packets := Joined(e.shown), e.state.filter.packets;
            && (packets > 0 <==> !Decided(-1, all) && CountBuffers(all) < 8)
            && (packets > 0 ==> packets == 8 - CountBuffers(all))
  {
    RunBudget(FRESH_FILTER, e.shown, e.stales);
  }

  /** Whatever the two ends have read and written in between and in whatever order: if all that one end has sent has
      arrived at the other, that has got exactly what was written if and only if the wire was cleanly cut. */
  lemma EndToEnd(a: Endpoint, b: Endpoint)
    requires a.Valid() && b.Valid() && a.state.userUuid == b.state.userUuid
    requires Delivered(b.arrived) == a.writer.history.wire && OpensWith(a.state.userUuid, b.arrived)
    ensures b.got == a.writer.history.written <==> CleanCut(a.state.userUuid, OPENED, AfterUuid(b.arrived))
  {
    var w := a.writer;
    StreamExact(a.state.userUuid, w.history, a.state.Writer(w.isUplink), w.rawConnection, b.arrived);
  }
}
