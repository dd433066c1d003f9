/** VisionWriter: framing the first packets of a connection. */
module VisionWriter {
  import opened ByteStrings
  import opened TlsFilter
  import opened TlsRecords
  import opened VisionFrame
  import opened VisionParser
  import opened VisionPlan
  import opened VisionState

  // ---------- Carrying it out

  predicate Carries(fs: seq<Frame>, commands: seq<Byte>, pieces: seq<Slot>) {
    && |fs| == |commands| <= |pieces|
    && forall k :: 0 <= k < |fs| ==>
         fs[k].command == commands[k] && fs[k].content == pieces[k].Data()
  }

  lemma {:induction false} CarriesContents(fs: seq<Frame>, commands: seq<Byte>, pieces: seq<Slot>)
    requires Carries(fs, commands, pieces)
    ensures Contents(fs) + Payload(pieces[|fs|..]) == Payload(pieces)
    decreases |fs|
  {
    if fs == [] {
      assert pieces[0..] == pieces;
    } else {
      CarriesContents(fs[1..], commands[1..], pieces[1..]);
      assert pieces[1..][|fs| - 1..] == pieces[|fs|..];
    }
  }

  /** What goes on the wire for a list of frames; the user id, if still there, goes first. */
  function Sent(leftUuid: Bytes, fs: seq<Frame>): (r: Bytes) {
    if fs == [] then [] else leftUuid + EncodeAll(fs)
  }

  lemma SentAppend(leftUuid: Bytes, fs: seq<Frame>, gs: seq<Frame>)
    ensures Sent(leftUuid, fs + gs) == Sent(leftUuid, fs) + Sent(if fs == [] then leftUuid else [], gs)
  {
    FramesAppend(fs, gs);
    if fs == [] {
      assert fs + gs == gs;
    } else if gs == [] {
      assert fs + gs == fs;
    } else {
      Assoc(leftUuid, EncodeAll(fs), EncodeAll(gs));
    }
  }

  /** One more framed buffer. */
  lemma SentSnoc(leftUuid: Bytes, fs: seq<Frame>, f: Frame, done: seq<Slot>, b: Buffer)
    requires Payload(done) == Sent(leftUuid, fs)
    requires b == (if fs == [] then leftUuid else []) + Encode(f)
    ensures Payload(done + [Buf(b)]) == Sent(leftUuid, fs + [f])
  {
    SentAppend(leftUuid, fs, [f]);
    PayloadSnoc(done, Buf(b));
    assert EncodeAll([f]) == Encode(f);
  }

  /** The branches of the loop: the command for piece `i`, the kind of padding, and whether to break. */
  method Decide(f: Filter, complete: bool, pieces: seq<Slot>, i: nat, before: WriterLink, longBefore: bool)
    returns (command: Byte, link: WriterLink, long: bool, longPadding: bool, over: bool, ghost rest: Plan)
    requires i < |pieces|
    ensures rest == if over then Plan([], link) else PlanFrom(f, complete, pieces, i + 1, link)
    ensures PlanFrom(f, complete, pieces, i, before) == Plan([command] + rest.commands, rest.link)
    ensures longBefore == (f.tls && NoDataBefore(f, complete, pieces, i)) ==>
              long == PaddedLong(f, complete, pieces, i) && longPadding == (f.tls && NoDataBefore(f, complete, pieces, i + 1))
  {
    SameStart(f, complete, pieces[i]);
    NoDataSnoc(f, complete, pieces, i);
    var b := pieces[i].Data();
    command, link, long, longPadding, over := COMMAND_CONTINUE, before, longBefore, longBefore, false;
    if f.tls && |b| >= 6 && b[..3] == APPLICATION_DATA_START && complete {
      if f.xtls {
        link := link.(direct := true);
      }
      if i == |pieces| - 1 {
        command := COMMAND_END;
        if f.xtls {
          command := COMMAND_DIRECT;
        }
      }
      long := true;
      link := link.(isPadding := false);
      longPadding := false;
    } else if !f.tls12 && f.packets <= 1 {
      link := link.(isPadding := false);
      command := COMMAND_END;
      over := true;
    } else if i == |pieces| - 1 && !link.isPadding {
      command := COMMAND_END;
      if f.xtls {
        command := COMMAND_DIRECT;
      }
    }
    rest := if over then Plan([], link) else PlanFrom(f, complete, pieces, i + 1, link);
  }

  /** How far the loop is: the first |fs| pieces are framed as planned, `rest` is the plan for the others. */
  ghost predicate Underway(plan: Plan, pieces: seq<Slot>, fs: seq<Frame>, rest: Plan) {
    && |fs| <= |pieces|
    && plan.link == rest.link && |plan.commands| == |fs| + |rest.commands|
    && plan.commands[|fs|..] == rest.commands
    && forall k :: 0 <= k < |fs| ==> fs[k].command == plan.commands[k] && fs[k].content == pieces[k].Data()
  }

  lemma UnderwayStep(plan: Plan, pieces: seq<Slot>, fs: seq<Frame>, rest: Plan, f: Frame, next: Plan)
    requires Underway(plan, pieces, fs, rest) && |fs| < |pieces|
    requires rest == Plan([f.command] + next.commands, next.link) && f.content == pieces[|fs|].Data()
    ensures Underway(plan, pieces, fs + [f], next)
  {
    assert plan.commands[|fs|] == rest.commands[0];
    assert plan.commands[|fs| + 1..] == rest.commands[1..];
  }

  /** What the loop has done: the frames follow the plan, are padded as promised, and have been written into `done`. */
  ghost predicate Framing(f: Filter, complete: bool, pieces: seq<Slot>, userUuid: Bytes, seeds: Seeds,
                          plan: Plan, fs: seq<Frame>, done: seq<Slot>, rest: Plan) {
    && |done| == |fs| && Underway(plan, pieces, fs, rest)
    && PaddedAsPromised(f, complete, pieces, fs, seeds)
    && Payload(done) == Sent(userUuid, fs)
  }

  lemma FramingStep(f: Filter, complete: bool, pieces: seq<Slot>, userUuid: Bytes, seeds: Seeds,
                    plan: Plan, fs: seq<Frame>, done: seq<Slot>, rest: Plan, frame: Frame, b: Buffer, next: Plan)
    requires Framing(f, complete, pieces, userUuid, seeds, plan, fs, done, rest) && |fs| < |pieces|
    requires rest == Plan([frame.command] + next.commands, next.link) && frame.content == pieces[|fs|].Data()
    requires Drawn(frame, PaddedLong(f, complete, pieces, |fs|), seeds)
    requires b == (if fs == [] then userUuid else []) + Encode(frame)
    ensures Framing(f, complete, pieces, userUuid, seeds, plan, fs + [frame], done + [Buf(b)], next)
  {
    SentSnoc(userUuid, fs, frame, done, b);
    UnderwayStep(plan, pieces, fs, rest, frame, next);
    PaddedStep(f, complete, pieces, fs, seeds, frame);
  }

  lemma FramingEnds(f: Filter, complete: bool, pieces: seq<Slot>, userUuid: Bytes, seeds: Seeds,
                    plan: Plan, fs: seq<Frame>, done: seq<Slot>, rest: Plan)
    requires Framing(f, complete, pieces, userUuid, seeds, plan, fs, done, rest) && rest.commands == []
    ensures Carries(fs, plan.commands, pieces) && plan.link == rest.link
    ensures PaddedAsPromised(f, complete, pieces, fs, seeds)
    ensures Payload(done + pieces[|fs|..]) == Sent(userUuid, fs) + Payload(pieces[|fs|..])
  {
    PayloadAppend(done, pieces[|fs|..]);
  }

  /** One turn of the loop. */
  method FramePiece(f: Filter, complete: bool, pieces: seq<Slot>, i: nat, before: WriterLink, longBefore: bool,
                    uuid: Bytes, seeds: Seeds, ghost userUuid: Bytes, ghost plan: Plan, ghost fs: seq<Frame>,
                    ghost done: seq<Slot>)
    returns (panics: bool, newbuffer: Buffer, link: WriterLink, longPadding: bool, over: bool, leftUuid: Bytes,
             ghost frame: Frame, ghost rest: Plan)
    requires |userUuid| <= 16 && Roomy(pieces) && i == |fs| < |pieces|
    requires Framing(f, complete, pieces, userUuid, seeds, plan, fs, done, PlanFrom(f, complete, pieces, i, before))
    requires uuid == (if fs == [] then userUuid else []) && longBefore == (f.tls && NoDataBefore(f, complete, pieces, i))
    ensures panics ==> !(Draws(seeds) && SafeSeeds(seeds))
    ensures rest == if over then Plan([], link) else PlanFrom(f, complete, pieces, i + 1, link)
    ensures longPadding == (f.tls && NoDataBefore(f, complete, pieces, i + 1))
    ensures !panics ==>
              leftUuid == [] && Framing(f, complete, pieces, userUuid, seeds, plan, fs + [frame], done + [Buf(newbuffer)], rest)
  {
    var command, long;
    ghost var draw;
    command, link, long, longPadding, over, rest := Decide(f, complete, pieces, i, before, longBefore);
    panics, newbuffer, leftUuid, frame, draw := XtlsPadding(pieces[i], command, uuid, long, seeds);
    if !panics {
      FramingStep(f, complete, pieces, userUuid, seeds, plan, fs, done, PlanFrom(f, complete, pieces, i, before),
                  frame, newbuffer, rest);
    }
  }

  /** The loop over the pieces of a call, with its early break. */
  method FramePieces(f: Filter, complete: bool, pieces: seq<Slot>, userUuid: Bytes, seeds: Seeds)
    returns (panics: bool, mb: seq<Slot>, link: WriterLink, leftUuid: Bytes, ghost fs: seq<Frame>)
    requires |userUuid| <= 16 && Roomy(pieces)
    ensures panics ==> !(Draws(seeds) && SafeSeeds(seeds))
    ensures !panics ==>
              var plan := PlanFrom(f, complete, pieces, 0, WriterLink(true, false));
              link == plan.link && Carries(fs, plan.commands, pieces) &&
              Payload(mb) == Sent(userUuid, fs) + Payload(pieces[|fs|..]) &&
              leftUuid == if fs == [] then userUuid else []
    ensures !panics ==> PaddedAsPromised(f, complete, pieces, fs, seeds)
  {
    var done: seq<Slot> := [];  // mb[..i]; the pieces from i on are still in place
    link := WriterLink(true, false);
    panics, mb, leftUuid, fs := false, pieces, userUuid, [];
    ghost var plan := PlanFrom(f, complete, pieces, 0, link);
    var longPadding := f.tls;
    ghost var rest := plan;
    for i := 0 to |pieces|
      invariant !panics && |fs| == |done| == i
      invariant Framing(f, complete, pieces, userUuid, seeds, plan, fs, done, rest)
      invariant rest == PlanFrom(f, complete, pieces, i, link)
      invariant leftUuid == if fs == [] then userUuid else []
      invariant longPadding == (f.tls && NoDataBefore(f, complete, pieces, i))
    {
      var newbuffer, over;
      ghost var frame;
      panics, newbuffer, link, longPadding, over, leftUuid, frame, rest :=
        FramePiece(f, complete, pieces, i, link, longPadding, leftUuid, seeds, userUuid, plan, fs, done);
      if panics {
        return;
      }
      done := done + [Buf(newbuffer)];
      fs := fs + [frame];
      if over {
        break;
      }
    }
    FramingEnds(f, complete, pieces, userUuid, seeds, plan, fs, done, rest);
    mb := done + pieces[|done|..];
  }

  // ---------- The writer

  /** What a writer has done so far: `written` was handed to it and `wire` was sent, namely the user id,
      `frames` and then, unframed, `raw`. */
  datatype History = History(leftUuid: Bytes, frames: seq<Frame>, raw: Bytes, wire: Bytes, written: Bytes) {
    ghost predicate SoundFrames(link: WriterLink, rawConnection: bool) {
      // Continue frames, then at most one terminal frame, after which nothing is framed.
      && Disciplined(frames)
      && (link.isPadding <==> !Terminated(frames))
      && (raw != [] ==> Terminated(frames))
      // Direct copy is armed or done exactly if the terminal frame said so, and never both.
      && (link.direct || rawConnection <==> TerminatedDirect(frames))
      && !(link.direct && rawConnection)
    }

    ghost predicate SoundBytes(uuid: Bytes) {
      // The user id is in front of the first frame only.
      && leftUuid == (if frames == [] then uuid else [])
      && wire == Sent(uuid, frames) + raw
      // No payload byte is lost or invented.
      && written == Contents(frames) + raw
    }

    /** One more call: frames first, then raw bytes. */
    function Extend(fs: seq<Frame>, tail: Bytes): History {
      History(if fs == [] then leftUuid else [], frames + fs, raw + tail,
              wire + (Sent(leftUuid, fs) + tail), written + (Contents(fs) + tail))
    }
  }

  /** A call that frames keeps the discipline. */
  lemma FramedExtends(h: History, before: WriterLink, link: WriterLink, rawConnection: bool, fs: seq<Frame>, tail: Bytes)
    requires h.SoundFrames(before, rawConnection) && before.isPadding && Disciplined(fs)
    requires (link.isPadding <==> !Terminated(fs)) && (link.direct <==> TerminatedDirect(fs)) && (tail != [] ==> Terminated(fs))
    ensures h.Extend(fs, tail).SoundFrames(link, rawConnection) && h.raw == []
  {
    DisciplineAppend(h.frames, fs);
  }

  /** So does a call that does not. */
  lemma RawExtends(h: History, link: WriterLink, rawConnection: bool, tail: Bytes)
    requires h.SoundFrames(link, rawConnection) && !link.isPadding
    ensures h.Extend([], tail).SoundFrames(link, rawConnection)
  {
    assert h.frames + [] == h.frames;
  }

  /** A call adds frames only while nothing has gone out raw. */
  lemma ExtendSound(h: History, uuid: Bytes, fs: seq<Frame>, tail: Bytes)
    requires h.SoundBytes(uuid)
    requires fs == [] || h.raw == []
    ensures h.Extend(fs, tail).SoundBytes(uuid)
  {
    if fs == [] {
      assert h.frames + fs == h.frames && Sent(h.leftUuid, fs) + tail == tail && Contents(fs) + tail == tail;
      Assoc(Sent(uuid, h.frames), h.raw, tail);
      Assoc(Contents(h.frames), h.raw, tail);
    } else {
      FramesAppend(h.frames, fs);
      SentAppend(uuid, h.frames, fs);
      assert h.wire == Sent(uuid, h.frames) && h.written == Contents(h.frames) && h.raw + tail == tail;
      Assoc(h.wire, Sent(h.leftUuid, fs), tail);
      Assoc(h.written, Contents(fs), tail);
    }
  }

  function Commands(fs: seq<Frame>): (r: seq<Byte>)
    ensures |r| == |fs|
  {
    seq(|fs|, k requires 0 <= k < |fs| => fs[k].command)
  }

  /** What a call that frames does, said on the bytes handed to it: the frames `fs` carry the first pieces of the reshaped
      multi-buffer, with commands and padding as promised, and so is the link left. */
  ghost predicate Follows(f: Filter, mb: seq<Slot>, fs: seq<Frame>, link: WriterLink, seeds: Seeds) {
    var complete, pieces := WholeRecords(Payload(mb)), Reshaped(mb);
    && |fs| <= |pieces|
    && (forall k :: 0 <= k < |fs| ==> fs[k].content == pieces[k].Data())
    && EndsAsPromised(f, complete, pieces, Commands(fs), link.isPadding)
    && PaddedAsPromised(f, complete, pieces, fs, seeds)
    && (link.direct <==> fs != [] && fs[|fs| - 1].command == 2)
  }

  /** What a call does that only asks for a frame of padding. */
  ghost predicate OnlyPads(fs: seq<Frame>, link: WriterLink, before: WriterLink, seeds: Seeds) {
    |fs| == 1 && fs[0].command == 0 && fs[0].content == [] && Drawn(fs[0], true, seeds) && link == before
  }

  lemma PlanFollows(f: Filter, mb: seq<Slot>, fs: seq<Frame>, link: WriterLink, seeds: Seeds)
    requires Consistent(f)
    requires var complete, pieces := WholeRecords(Payload(mb)), Reshaped(mb);
             var plan := PlanFrom(f, complete, pieces, 0, WriterLink(true, false));
             && Carries(fs, plan.commands, pieces) && link == plan.link
             && PaddedAsPromised(f, complete, pieces, fs, seeds)
    ensures Follows(f, mb, fs, link, seeds)
  {
    var complete, pieces := WholeRecords(Payload(mb)), Reshaped(mb);
    PlanKeepsPromise(f, complete, pieces);
    PlanDiscipline(f, complete, pieces, 0, WriterLink(true, false));
    assert Commands(fs) == PlanFrom(f, complete, pieces, 0, WriterLink(true, false)).commands;
  }

  /** The frames of a plan are those of a call. */
  lemma PlannedFrames(f: Filter, complete: bool, pieces: seq<Slot>, fs: seq<Frame>)
    requires Consistent(f)
    requires Carries(fs, PlanFrom(f, complete, pieces, 0, WriterLink(true, false)).commands, pieces)
    ensures var link := PlanFrom(f, complete, pieces, 0, WriterLink(true, false)).link;
            && Disciplined(fs)
            && (link.isPadding <==> !Terminated(fs))
            && (link.direct <==> TerminatedDirect(fs))
            && (Payload(pieces[|fs|..]) != [] ==> Terminated(fs))
    ensures Contents(fs) + Payload(pieces[|fs|..]) == Payload(pieces)
  {
    PlanDiscipline(f, complete, pieces, 0, WriterLink(true, false));
    CarriesContents(fs, PlanFrom(f, complete, pieces, 0, WriterLink(true, false)).commands, pieces);
  }

  class VisionWriter {
    const state: TrafficState
    const isUplink: bool
    const seeds: Seeds
    var writeOnceUserUuid: Bytes
    var rawConnection: bool       // Writer has been replaced by one on the raw connection

    ghost var history: History

    /** The history is that of the link. */
    ghost predicate Recorded()
      reads this, state`inboundWriter, state`outboundWriter
    {
      && writeOnceUserUuid == history.leftUuid
      && history.SoundFrames(state.Writer(isUplink), rawConnection)
      && history.SoundBytes(state.userUuid)
    }

    /** What every call keeps. */
    ghost predicate Valid()
      reads this, state
    {
      |state.userUuid| == 16 && Consistent(state.filter) && Recorded()
    }

    /** NewVisionWriter. Fewer than four testseed entries mean the defaults. */
    constructor (state: TrafficState, isUplink: bool, testseed: seq<Uint32>)
      requires |state.userUuid| == 16 && Consistent(state.filter)
      requires state.Writer(isUplink) == WriterLink(true, false)
      ensures Valid() && this.state == state && this.isUplink == isUplink
      ensures seeds == if |testseed| < 4 then DEFAULT_SEEDS else Seeds(testseed[0], testseed[1], testseed[2], testseed[3])
      ensures history == History(state.userUuid, [], [], [], [])
    {
      this.state := state;
      this.isUplink := isUplink;
      seeds := if |testseed| < 4 then DEFAULT_SEEDS
               else Seeds(testseed[0], testseed[1], testseed[2], testseed[3]);
      writeOnceUserUuid := state.userUuid;
      rawConnection := false;
      history := History(state.userUuid, [], [], [], []);
    }

    /** One call. While there is padding, a multi-buffer is a single nil, which asks for a frame of padding, or all buffers.
        The call adds the frames `fs`, those of its plan, and sends `tail` raw, unless a draw makes the padding panic. */
    method WriteMultiBuffer(mb: seq<Slot>)
      returns (panics: bool, out: seq<Slot>, ghost fs: seq<Frame>, ghost tail: Bytes, ghost stale: seq<int>)
      requires Valid() && (state.Writer(isUplink).isPadding ==> mb == [Nil] || AllBuffers(mb))
      modifies this, state`filter, state`inboundWriter, state`outboundWriter
      ensures panics ==> old(state.Writer(isUplink).isPadding) && !(Draws(seeds) && SafeSeeds(seeds))
      ensures !panics ==> Valid() && history == old(history).Extend(fs, tail)
      ensures !panics ==> Payload(mb) == Contents(fs) + tail && Payload(out) == Sent(old(writeOnceUserUuid), fs) + tail
      ensures !old(state.Writer(isUplink).isPadding) ==> fs == [] && out == mb
      ensures !panics && old(state.Writer(isUplink).isPadding) ==>
                if mb == [Nil] then OnlyPads(fs, state.Writer(isUplink), WriterLink(true, false), seeds)
                else Follows(state.filter, mb, fs, state.Writer(isUplink), seeds)
      ensures !panics && !old(state.Writer(isUplink).isPadding) ==> state.Writer(isUplink) == WriterLink(false, false)
      ensures rawConnection == (old(rawConnection) || old(state.Writer(isUplink).direct))
      ensures state.Writer(!isUplink) == old(state.Writer(!isUplink))
      ensures |stale| == |mb| && state.filter ==
                if old(state.filter.packets) > 0 then FilterAll(old(state.filter), mb, stale).0
                else old(state.filter)
    {
      var link := state.Writer(isUplink);
      if link.direct {
        rawConnection := true;
        link := link.(direct := false);
      }
      stale := FilterPackets(mb);
      panics, out, link, writeOnceUserUuid, fs, tail := Emit(mb, link);
      if panics {
        return;
      }
      Commit(link, fs, tail);
    }

    /** The end of a call. */
    method Commit(link: WriterLink, ghost fs: seq<Frame>, ghost tail: Bytes)
      requires |state.userUuid| == 16 && Consistent(state.filter) && history.SoundBytes(state.userUuid)
      requires (fs == [] || history.raw == []) && writeOnceUserUuid == history.Extend(fs, tail).leftUuid
      requires history.Extend(fs, tail).SoundFrames(link, rawConnection)
      modifies `history, state`inboundWriter, state`outboundWriter
      ensures Valid() && history == old(history).Extend(fs, tail) && state.Writer(isUplink) == link
      ensures state.Writer(!isUplink) == old(state.Writer(!isUplink))
    {
      ExtendSound(history, state.userUuid, fs, tail);
      history := history.Extend(fs, tail);
      state.SetWriter(isUplink, link);
    }

    method FilterPackets(mb: seq<Slot>) returns (ghost stale: seq<int>)
      requires Consistent(state.filter)
      modifies state`filter
      ensures Consistent(state.filter)
      ensures |stale| == |mb| && state.filter ==
                if old(state.filter.packets) > 0 then FilterAll(old(state.filter), mb, stale).0
                else old(state.filter)
    {
      stale := seq(|mb|, _ => 0);
      if state.filter.packets > 0 {
        var g;
        g, stale := XtlsFilterTls(state.filter, mb);
        FilterIsSafe(state.filter, mb, stale);
        state.filter := g;
      }
    }

    /** The branches of a call: a frame of padding, framing, or everything as it is. */
    method Emit(mb: seq<Slot>, before: WriterLink)
      returns (panics: bool, out: seq<Slot>, link: WriterLink, leftUuid: Bytes, ghost fs: seq<Frame>, ghost tail: Bytes)
      requires |writeOnceUserUuid| <= 16
      requires Consistent(state.filter) && (before.isPadding ==> mb == [Nil] || AllBuffers(mb))
      requires history.SoundFrames(before, rawConnection)
      ensures panics ==> before.isPadding && !(Draws(seeds) && SafeSeeds(seeds))
      ensures !panics ==> history.Extend(fs, tail).SoundFrames(link, rawConnection) && (fs == [] || history.raw == [])
      ensures !panics ==> Payload(mb) == Contents(fs) + tail && Payload(out) == Sent(writeOnceUserUuid, fs) + tail
      ensures !panics ==> leftUuid == if fs == [] then writeOnceUserUuid else []
      ensures !before.isPadding ==> fs == [] && out == mb
      ensures !panics && before.isPadding ==>
                if mb == [Nil] then OnlyPads(fs, link, before, seeds) else Follows(state.filter, mb, fs, link, seeds)
      ensures !before.isPadding ==> link == before
    {
      panics, out, link, leftUuid, fs, tail := false, mb, before, writeOnceUserUuid, [], Payload(mb);
      if link.isPadding {
        if mb == [Nil] {
          var newbuffer;
          ghost var frame, draw;
          panics, newbuffer, leftUuid, frame, draw := XtlsPadding(Nil, COMMAND_CONTINUE, writeOnceUserUuid, true, seeds);
          if panics {
            return;
          }
          out := [Buf(newbuffer)];
          fs, tail := [frame], [];
          OneFrame(writeOnceUserUuid, frame, newbuffer);
        } else {
          panics, out, link, leftUuid, fs, tail := FrameCall(mb);
          if panics {
            return;
          }
        }
        FramedExtends(history, before, link, rawConnection, fs, tail);
      } else {
        RawExtends(history, before, rawConnection, tail);
      }
    }

    /** The framing branch: whole-record test, reshaping, and the loop. */
    method FrameCall(mb: seq<Slot>)
      returns (panics: bool, out: seq<Slot>, link: WriterLink, leftUuid: Bytes, ghost fs: seq<Frame>, ghost tail: Bytes)
      requires |writeOnceUserUuid| <= 16
      requires Consistent(state.filter) && AllBuffers(mb)
      ensures panics ==> !(Draws(seeds) && SafeSeeds(seeds))
      ensures !panics ==> Follows(state.filter, mb, fs, link, seeds) && Disciplined(fs)
      ensures !panics ==> (link.isPadding <==> !Terminated(fs)) && (link.direct <==> TerminatedDirect(fs))
      ensures !panics && tail != [] ==> Terminated(fs)
      ensures !panics ==> Payload(mb) == Contents(fs) + tail && Payload(out) == Sent(writeOnceUserUuid, fs) + tail
      ensures !panics ==> leftUuid == if fs == [] then writeOnceUserUuid else []
    {
      var datas := Datas(mb);
      var isComplete := IsCompleteRecord(datas);
      var pieces := ReshapeMultiBuffer(mb);
      panics, out, link, leftUuid, fs := FramePieces(state.filter, isComplete, pieces, writeOnceUserUuid, seeds);
      if panics {
        tail := [];
        return;
      }
      tail := Payload(pieces[|fs|..]);
      PlannedFrames(state.filter, isComplete, pieces, fs);
      PlanFollows(state.filter, mb, fs, link, seeds);
    }
  }

  lemma OneFrame(leftUuid: Bytes, f: Frame, b: Buffer)
    requires b == leftUuid + Encode(f)
    ensures Payload([Buf(b)]) == Sent(leftUuid, [f]) + [] && Contents([f]) == f.content
  {
    assert EncodeAll([f]) == Encode(f);
    assert Payload([Buf(b)]) == b;
  }

  function Datas(mb: seq<Slot>): (r: seq<Bytes>)
    ensures Flatten(r) == Payload(mb)
  {
    if mb == [] then [] else [mb[0].Data()] + Datas(mb[1..])
  }
}
