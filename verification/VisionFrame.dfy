/** The printing half of the Vision stream: XtlsPadding and the reshaping that makes room for it. */
module VisionFrame {
  import opened ByteStrings

  const COMMAND_CONTINUE: Byte := 0
  const COMMAND_END: Byte := 1
  const COMMAND_DIRECT: Byte := 2

  /** The user id (16) and the frame header (5). */
  const OVERHEAD := 21
  /** The most content one frame can carry beside its overhead. */
  const MAX_CONTENT := BUFFER_SIZE - OVERHEAD

  /** One frame: command, content, and how many bytes of padding follow. */
  datatype AnyFrame = Frame(command: Byte, content: Bytes, padding: nat)

  /** A frame that fits one buffer together with its overhead. */
  type Frame = f: AnyFrame | |f.content| + f.padding <= MAX_CONTENT witness Frame(0, [], 0)

  function Zeros(n: nat): (r: Bytes)
    ensures |r| == n
  {
    if n == 0 then [] else Zeros(n - 1) + [0]
  }

  function Header(f: Frame): (r: Bytes)
    ensures |r| == 5
  {
    [f.command, High(|f.content|), Low(|f.content|), High(f.padding), Low(f.padding)]
  }

  function Encode(f: Frame): (r: Bytes) {
    Header(f) + f.content + Zeros(f.padding)
  }

  function EncodeAll(fs: seq<Frame>): (r: Bytes) {
    if fs == [] then [] else Encode(fs[0]) + EncodeAll(fs[1..])
  }

  /** The layout of a frame: command, length of the content, length of the padding, both high byte first, content, padding. */
  lemma FrameLayout(f: Frame)
    ensures var e := Encode(f);
            && |e| == 5 + |f.content| + f.padding
            && e[0] == f.command
            && Word(e[1], e[2]) == |f.content| && Word(e[3], e[4]) == f.padding
            && e[5..5 + |f.content|] == f.content
  {
  }

  /** The payload that a list of frames carries. */
  function Contents(fs: seq<Frame>): (r: Bytes) {
    if fs == [] then [] else fs[0].content + Contents(fs[1..])
  }

  lemma {:induction false} FramesAppend(a: seq<Frame>, b: seq<Frame>)
    ensures EncodeAll(a + b) == EncodeAll(a) + EncodeAll(b)
    ensures Contents(a + b) == Contents(a) + Contents(b)
  {
    if a == [] {
      assert a + b == b;
    } else {
      assert (a + b)[1..] == a[1..] + b && (a + b)[0] == a[0];
      FramesAppend(a[1..], b);
      Assoc(Encode(a[0]), EncodeAll(a[1..]), EncodeAll(b));
      Assoc(a[0].content, Contents(a[1..]), Contents(b));
    }
  }

  // ---------- How much padding

  /** Conversion to int32: the low 32 bits, read as two's complement. */
  function Int32(x: int): (r: int)
    ensures -0x8000_0000 <= r < 0x8000_0000
    ensures -0x8000_0000 <= x < 0x8000_0000 ==> r == x
  {
    var m := x % 0x1_0000_0000;
    if m >= 0x8000_0000 then m - 0x1_0000_0000 else m
  }

  type Uint32 = x: int | 0 <= x < 0x1_0000_0000

  /** The four testseed entries. */
  datatype Seeds = Seeds(longBelow: Uint32, longRange: Uint32, longBase: Uint32, shortRange: Uint32)

  const DEFAULT_SEEDS := Seeds(900, 500, 900, 256)

  predicate UsesLong(contentLen: int, longPadding: bool, seeds: Seeds) {
    contentLen < Int32(seeds.longBelow) && longPadding
  }

  /** The range the random draw is taken from. Both ranges must be positive for there to be a draw. */
  function DrawRange(contentLen: int, longPadding: bool, seeds: Seeds): int {
    if UsesLong(contentLen, longPadding, seeds) then seeds.longRange else seeds.shortRange
  }

  function PaddingLength(contentLen: int, longPadding: bool, seeds: Seeds, draw: int): int {
    var wanted := if UsesLong(contentLen, longPadding, seeds)
                  then Int32(Int32(Int32(draw) + Int32(seeds.longBase)) - contentLen)
                  else Int32(draw);
    if wanted > MAX_CONTENT - contentLen then MAX_CONTENT - contentLen else wanted
  }

  /** Seeds for which no draw can give a negative padding length. */
  predicate SafeSeeds(seeds: Seeds) {
    && seeds.shortRange <= 0x8000_0000
    && (Int32(seeds.longBelow) > 0 ==>
          && seeds.longRange + seeds.longBase <= 0x8000_0000
          && (seeds.longBelow <= seeds.longBase + 1 || MAX_CONTENT <= seeds.longBase))
  }

  /** Every range that is ever drawn from is positive. */
  predicate Draws(seeds: Seeds) {
    0 < seeds.shortRange && (Int32(seeds.longBelow) > 0 ==> 0 < seeds.longRange)
  }

  ghost predicate NeverNegative(seeds: Seeds) {
    forall contentLen, longPadding, draw ::
      0 <= contentLen <= MAX_CONTENT && 0 <= draw < DrawRange(contentLen, longPadding, seeds) ==>
        PaddingLength(contentLen, longPadding, seeds, draw) >= 0
  }

  lemma PaddingIsSafe(contentLen: int, longPadding: bool, seeds: Seeds, draw: int)
    requires SafeSeeds(seeds) && 0 <= contentLen <= MAX_CONTENT
    requires 0 <= draw < DrawRange(contentLen, longPadding, seeds)
    ensures 0 <= PaddingLength(contentLen, longPadding, seeds, draw) <= MAX_CONTENT - contentLen
  {
  }

  /** For seeds outside SafeSeeds, a content length and a draw that give a negative length. */
  lemma NegativePadding(seeds: Seeds) returns (contentLen: int, longPadding: bool, draw: int)
    requires Draws(seeds) && !SafeSeeds(seeds)
    ensures 0 <= contentLen <= MAX_CONTENT && 0 <= draw < DrawRange(contentLen, longPadding, seeds)
    ensures PaddingLength(contentLen, longPadding, seeds, draw) < 0
  {
    if seeds.shortRange > 0x8000_0000 {
      contentLen, longPadding, draw := 0, false, 0x8000_0000;
    } else {
      var most := if seeds.longBelow <= MAX_CONTENT then seeds.longBelow - 1 else MAX_CONTENT;
      longPadding := true;
      if seeds.longBase < most {
        contentLen, draw := most, 0;
      } else {
        // The sum passes 2^31, or the base alone does.
        contentLen, draw := 0, if seeds.longBase >= 0x8000_0000 then 0 else 0x8000_0000 - seeds.longBase;
      }
    }
  }

  /** A negative length makes Buffer.Extend slice backwards, which panics: the seeds are usable exactly when
      they satisfy SafeSeeds. */
  lemma PaddingNeverNegative(seeds: Seeds)
    requires Draws(seeds)
    ensures SafeSeeds(seeds) <==> NeverNegative(seeds)
  {
    if SafeSeeds(seeds) {
      forall contentLen, longPadding, draw |
        0 <= contentLen <= MAX_CONTENT && 0 <= draw < DrawRange(contentLen, longPadding, seeds)
        ensures PaddingLength(contentLen, longPadding, seeds, draw) >= 0
      {
        PaddingIsSafe(contentLen, longPadding, seeds, draw);
      }
    } else {
      var contentLen, longPadding, draw := NegativePadding(seeds);
    }
  }

  /** Neither the draw nor the length can panic. */
  ghost predicate NeverPanics(seeds: Seeds) {
    && NeverNegative(seeds)
    && forall contentLen, longPadding :: 0 <= contentLen <= MAX_CONTENT ==> DrawRange(contentLen, longPadding, seeds) > 0
  }

  /** For which seeds padding never panics: for every choice of the four, no more and no less. */
  lemma PaddingNeverPanics(seeds: Seeds)
    ensures Draws(seeds) && SafeSeeds(seeds) <==> NeverPanics(seeds)
  {
    if Draws(seeds) {
      PaddingNeverNegative(seeds);
    } else if seeds.shortRange == 0 {
      assert DrawRange(0, false, seeds) == 0;
    } else {
      assert DrawRange(0, true, seeds) == 0;
    }
  }

  /** What usable seeds do: long padding brings content and padding together to a length that does not depend on the
      content, short padding adds what was drawn; never more than a buffer holds. */
  lemma PaddedTo(contentLen: int, longPadding: bool, seeds: Seeds, draw: int)
    requires SafeSeeds(seeds) && 0 <= contentLen <= MAX_CONTENT
    requires 0 <= draw < DrawRange(contentLen, longPadding, seeds)
    ensures var wanted := if longPadding && contentLen < Int32(seeds.longBelow) then draw + seeds.longBase else contentLen + draw;
            contentLen + PaddingLength(contentLen, longPadding, seeds, draw) == if wanted < MAX_CONTENT then wanted else MAX_CONTENT
  {
  }

  /** The padding of a frame is one that XtlsPadding can draw. */
  ghost predicate Drawn(frame: Frame, longPadding: bool, seeds: Seeds) {
    exists draw ::
      && 0 <= draw < DrawRange(|frame.content|, longPadding, seeds)
      && frame.padding == PaddingLength(|frame.content|, longPadding, seeds, draw)
  }

  lemma DefaultSeedsAreSafe()
    ensures Draws(DEFAULT_SEEDS) && SafeSeeds(DEFAULT_SEEDS)
  {
  }

  lemma Regroup(u: Bytes, h: Bytes, c: Bytes, z: Bytes)
    ensures u + h + c + z == u + (h + c + z)
  {
  }

  /** The random choice of XtlsPadding. */
  method ChoosePadding(contentLen: int, longPadding: bool, seeds: Seeds) returns (paddingLen: int, ghost draw: int)
    requires 0 < DrawRange(contentLen, longPadding, seeds)
    ensures 0 <= draw < DrawRange(contentLen, longPadding, seeds)
    ensures paddingLen == PaddingLength(contentLen, longPadding, seeds, draw)
  {
    if contentLen < Int32(seeds.longBelow) && longPadding {
      var l :| 0 <= l < seeds.longRange;
      draw := l;
      paddingLen := Int32(Int32(Int32(l) + Int32(seeds.longBase)) - contentLen);
    } else {
      var l :| 0 <= l < seeds.shortRange;
      draw := l;
      paddingLen := Int32(l);
    }
    if paddingLen > BUFFER_SIZE - 21 - contentLen {
      paddingLen := BUFFER_SIZE - 21 - contentLen;
    }
  }

  /** XtlsPadding. `userUuid` is written in front once and then forgotten (`leftUuid`). A range of zero makes rand.Int
      panic, a negative padding length Buffer.Extend. */
  method XtlsPadding(b: Slot, command: Byte, userUuid: Bytes, longPadding: bool, seeds: Seeds)
    returns (panics: bool, newbuffer: Buffer, leftUuid: Bytes, ghost frame: Frame, ghost draw: int)
    requires |userUuid| <= 16
    ensures 0 < DrawRange(|b.Data()|, longPadding, seeds) ==> 0 <= draw < DrawRange(|b.Data()|, longPadding, seeds)
    ensures panics <==> DrawRange(|b.Data()|, longPadding, seeds) == 0 || PaddingLength(|b.Data()|, longPadding, seeds, draw) < 0
    ensures Draws(seeds) && SafeSeeds(seeds) && |b.Data()| <= MAX_CONTENT ==> !panics
    ensures !panics ==>
              leftUuid == [] && newbuffer == userUuid + Encode(frame) &&
              frame == Frame(command, b.Data(), PaddingLength(|b.Data()|, longPadding, seeds, draw))
    ensures !panics ==> Drawn(frame, longPadding, seeds)
  {
    var contentLen := 0;
    if b.Buf? {
      contentLen := |b.data|;
    }
    if DrawRange(contentLen, longPadding, seeds) == 0 {
      panics, newbuffer, leftUuid, frame, draw := true, [], userUuid, Frame(0, [], 0), 0;
      return;
    }
    var paddingLen;
    paddingLen, draw := ChoosePadding(contentLen, longPadding, seeds);
    if SafeSeeds(seeds) && contentLen <= MAX_CONTENT {
      PaddingIsSafe(contentLen, longPadding, seeds, draw);
    }
    panics := paddingLen < 0;
    if panics {
      newbuffer, leftUuid, frame := [], userUuid, Frame(0, [], 0);
      return;
    }
    frame := Frame(command, b.Data(), paddingLen);
    var written := userUuid;
    leftUuid := [];
    written := written + [command, High(contentLen), Low(contentLen), High(paddingLen), Low(paddingLen)];
    if b.Buf? {
      written := written + b.data;
    }
    written := written + Zeros(paddingLen);
    Regroup(userUuid, Header(frame), frame.content, Zeros(paddingLen));
    newbuffer := written;
  }

  // ---------- Making room

  const APPLICATION_DATA_START: Bytes := [0x17, 0x03, 0x03]

  /** The last position at or below `from` where `needle` occurs, or -1 (bytes.LastIndex). */
  function LastIndex(hay: Bytes, needle: Bytes, from: int): (r: int)
    requires from <= |hay|
    ensures r == -1 || OccursAt(hay, needle, r)
    ensures -1 <= r
    ensures forall i :: r < i <= from && i >= 0 ==> !OccursAt(hay, needle, i)
    decreases from + 1
  {
    if from < 0 then -1
    else if OccursAt(hay, needle, from) then from
    else LastIndex(hay, needle, from - 1)
  }

  predicate NeedsReshape(b: Slot) {
    |b.Data()| >= MAX_CONTENT
  }

  /** Where an oversized buffer is cut: at its last record start, if that leaves room on both sides. */
  function CutPoint(b: Bytes): (index: int)
    requires MAX_CONTENT <= |b| <= BUFFER_SIZE
    ensures OVERHEAD <= index <= MAX_CONTENT && index < |b|
    ensures |b| - index <= MAX_CONTENT
  {
    var index := LastIndex(b, APPLICATION_DATA_START, |b|);
    if index < 21 || index > BUFFER_SIZE - 21 then BUFFER_SIZE / 2 else index
  }

  function ReshapeOne(b: Slot): seq<Slot> {
    if NeedsReshape(b) then
      var index := CutPoint(b.data);
      [Buf(b.data[..index]), Buf(b.data[index..])]
    else [b]
  }

  function Reshaped(mb: seq<Slot>): seq<Slot> {
    if mb == [] then [] else Reshaped(mb[..|mb| - 1]) + ReshapeOne(mb[|mb| - 1])
  }

  /** Every piece leaves room for the user id and the header. */
  predicate Roomy(mb: seq<Slot>) {
    forall i :: 0 <= i < |mb| ==> |mb[i].Data()| <= MAX_CONTENT
  }

  predicate NoEmpties(mb: seq<Slot>) {
    forall i :: 0 <= i < |mb| ==> |mb[i].Data()| > 0
  }

  predicate AllBuffers(mb: seq<Slot>) {
    forall i :: 0 <= i < |mb| ==> mb[i].Buf?
  }

  lemma ReshapeOnePieces(b: Slot)
    ensures |ReshapeOne(b)| >= 1 && Roomy(ReshapeOne(b))
    ensures |b.Data()| > 0 ==> NoEmpties(ReshapeOne(b))
    ensures b.Buf? ==> AllBuffers(ReshapeOne(b))
  {
  }

  lemma ReshapeOneKeepsBytes(b: Slot)
    ensures Payload(ReshapeOne(b)) == b.Data()
  {
    if NeedsReshape(b) {
      var index := CutPoint(b.data);
      assert ReshapeOne(b) == [Buf(b.data[..index])] + [Buf(b.data[index..])];
      PayloadSnoc([Buf(b.data[..index])], Buf(b.data[index..]));
      PayloadSnoc([], Buf(b.data[..index]));
      assert [] + [Buf(b.data[..index])] == [Buf(b.data[..index])];
    } else {
      assert [b] == [] + [b];
      PayloadSnoc([], b);
    }
  }

  lemma PiecesAppend(a: seq<Slot>, b: seq<Slot>)
    ensures Roomy(a) && Roomy(b) ==> Roomy(a + b)
    ensures NoEmpties(a) && NoEmpties(b) ==> NoEmpties(a + b)
    ensures AllBuffers(a) && AllBuffers(b) ==> AllBuffers(a + b)
  {
  }

  lemma {:induction false} ReshapeKeepsBytes(mb: seq<Slot>)
    ensures Payload(Reshaped(mb)) == Payload(mb)
  {
    if mb != [] {
      var front, last := mb[..|mb| - 1], mb[|mb| - 1];
      ReshapeKeepsBytes(front);
      ReshapeStepKeepsBytes(Reshaped(front), front, last);
      assert mb == front + [last];
    }
  }

  lemma ReshapeStepKeepsBytes(done: seq<Slot>, front: seq<Slot>, last: Slot)
    requires Payload(done) == Payload(front)
    ensures Payload(done + ReshapeOne(last)) == Payload(front + [last])
  {
    ReshapeOneKeepsBytes(last);
    PayloadAppend(done, ReshapeOne(last));
    PayloadSnoc(front, last);
  }

  lemma {:induction false} ReshapedPieces(mb: seq<Slot>)
    ensures Roomy(Reshaped(mb))
    ensures NoEmpties(mb) ==> NoEmpties(Reshaped(mb))
    ensures AllBuffers(mb) ==> AllBuffers(Reshaped(mb))
  {
    if mb != [] {
      var front, last := mb[..|mb| - 1], mb[|mb| - 1];
      ReshapedPieces(front);
      ReshapeOnePieces(last);
      PiecesAppend(Reshaped(front), ReshapeOne(last));
    }
  }

  lemma {:induction false} NothingToReshape(mb: seq<Slot>)
    requires forall i :: 0 <= i < |mb| ==> !NeedsReshape(mb[i])
    ensures Reshaped(mb) == mb
  {
    if mb != [] {
      NothingToReshape(mb[..|mb| - 1]);
      assert mb == mb[..|mb| - 1] + [mb[|mb| - 1]];
    }
  }

  // ---------- Where it cuts

  predicate StartsRecordAt(b: Bytes, k: int) {
    0 <= k <= |b| - 3 && b[k] == 0x17 && b[k + 1] == 0x03 && b[k + 2] == 0x03
  }

  predicate LastStart(b: Bytes, r: int) {
    StartsRecordAt(b, r) && forall k :: r < k <= |b| - 3 ==> !StartsRecordAt(b, k)
  }

  lemma OccursAtStart(b: Bytes, k: int)
    ensures OccursAt(b, APPLICATION_DATA_START, k) <==> StartsRecordAt(b, k)
  {
    if 0 <= k <= |b| - 3 {
      assert b[k..k + 3] == [b[k], b[k + 1], b[k + 2]];
    }
  }

  lemma IndexOfLastStart(b: Bytes, r: int)
    ensures LastStart(b, r) ==> LastIndex(b, APPLICATION_DATA_START, |b|) == r
    ensures (forall k :: 0 <= k <= |b| ==> !StartsRecordAt(b, k)) ==> LastIndex(b, APPLICATION_DATA_START, |b|) == -1
  {
    var index := LastIndex(b, APPLICATION_DATA_START, |b|);
    OccursAtStart(b, index);
    OccursAtStart(b, r);
  }

  predicate InTwo(pieces: seq<Slot>, b: Bytes, cut: nat) {
    && |pieces| == 2 && pieces[0].Buf? && pieces[1].Buf?
    && cut <= |b| && pieces[0].data == b[..cut] && pieces[1].data == b[cut..]
  }

  /** A buffer is cut only if no room is left for the overhead: at the last record start in it, if the overhead fits in front
      of it and the rest leaves as much room; in the middle if that is too near either end, or there is none. */
  lemma CutAtLastStart(b: Slot, r: int)
    ensures |b.Data()| < 8171 ==> ReshapeOne(b) == [b]
    ensures |b.Data()| >= 8171 && LastStart(b.Data(), r) ==> InTwo(ReshapeOne(b), b.data, if 21 <= r <= 8171 then r else 4096)
    ensures |b.Data()| >= 8171 && (forall k :: 0 <= k <= |b.Data()| ==> !StartsRecordAt(b.Data(), k)) ==>
              InTwo(ReshapeOne(b), b.data, 4096)
  {
    IndexOfLastStart(b.Data(), r);
  }

  /** Each buffer is cut for itself, and the pieces keep the order. */
  lemma {:induction false} ReshapedAppend(a: seq<Slot>, b: seq<Slot>)
    ensures Reshaped(a + b) == Reshaped(a) + Reshaped(b)
    decreases |b|
  {
    if b == [] {
      ReshapedNothing(a);
    } else {
      var front, x := b[..|b| - 1], b[|b| - 1];
      ReshapedAppend(a, front);
      assert b == front + [x];
      ReshapedAppendStep(a, front, x, b);
    }
  }

  lemma ReshapedNothing(a: seq<Slot>)
    ensures Reshaped(a + []) == Reshaped(a) + Reshaped([])
  {
    assert a + [] == a;
  }

  lemma ReshapedAppendStep(a: seq<Slot>, b: seq<Slot>, x: Slot, all: seq<Slot>)
    requires Reshaped(a + b) == Reshaped(a) + Reshaped(b) && all == b + [x]
    ensures Reshaped(a + all) == Reshaped(a) + Reshaped(all)
  {
    ReshapedSnoc(a + b, x);
    ReshapedSnoc(b, x);
    SlotsAssoc(a, b, [x]);
    SlotsAssoc(Reshaped(a), Reshaped(b), ReshapeOne(x));
  }

  lemma SlotsAssoc(a: seq<Slot>, b: seq<Slot>, c: seq<Slot>)
    ensures (a + b) + c == a + (b + c)
  {
  }

  lemma ReshapedSnoc(mb: seq<Slot>, x: Slot)
    ensures Reshaped(mb + [x]) == Reshaped(mb) + ReshapeOne(x)
  {
    assert (mb + [x])[..|mb|] == mb;
  }

  method CountToReshape(buffer: seq<Slot>) returns (needReshape: nat)
    ensures needReshape == 0 <==> forall k :: 0 <= k < |buffer| ==> !NeedsReshape(buffer[k])
  {
    needReshape := 0;
    for i := 0 to |buffer|
      invariant needReshape == 0 <==> forall k :: 0 <= k < i ==> !NeedsReshape(buffer[k])
    {
      if |buffer[i].Data()| >= BUFFER_SIZE - 21 {
        needReshape := needReshape + 1;
      }
    }
  }

  method ReshapeMultiBuffer(buffer: seq<Slot>) returns (mb2: seq<Slot>)
    ensures mb2 == Reshaped(buffer)
    ensures Payload(mb2) == Payload(buffer) && Roomy(mb2)
  {
    ReshapeKeepsBytes(buffer);
    ReshapedPieces(buffer);
    var needReshape := CountToReshape(buffer);
    if needReshape == 0 {
      NothingToReshape(buffer);
      return buffer;
    }
    mb2 := [];
    for i := 0 to |buffer|
      invariant mb2 == Reshaped(buffer[..i])
    {
      assert buffer[..i + 1][..i] == buffer[..i];
      var pieces := ReshapeBuffer(buffer[i]);
      mb2 := mb2 + pieces;
    }
    assert buffer[..|buffer|] == buffer;
  }

  method ReshapeBuffer(b: Slot) returns (pieces: seq<Slot>)
    ensures pieces == ReshapeOne(b)
  {
    var buffer1 := b;
    if |buffer1.Data()| >= BUFFER_SIZE - 21 {
      var index := LastIndex(buffer1.data, APPLICATION_DATA_START, |buffer1.data|);
      if index < 21 || index > BUFFER_SIZE - 21 {
        index := BUFFER_SIZE / 2;
      }
      var buffer2 := Buf(buffer1.data[index..]);
      buffer1 := Buf(buffer1.data[..index]);
      pieces := [buffer1, buffer2];
    } else {
      pieces := [buffer1];
    }
  }
}
