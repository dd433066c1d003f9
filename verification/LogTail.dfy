/** The last lines of a log file, read backwards in blocks. */
module LogTail {
  import opened ByteStrings

  const NEWLINE: Byte := 10
  const CHUNK := 8192

  function Count(s: Bytes): (n: nat)
    ensures n <= |s|
  {
    if s == [] then 0 else Count(s[..|s| - 1]) + (if s[|s| - 1] == NEWLINE then 1 else 0)
  }

  /** bytes.Split at newlines: always at least one line. */
  function Split(s: Bytes): (lines: seq<Bytes>)
    ensures |lines| == Count(s) + 1
  {
    if s == [] then [[]]
    else
      var lines, last := Split(s[..|s| - 1]), s[|s| - 1];
      if last == NEWLINE then lines + [[]]
      else lines[..|lines| - 1] + [lines[|lines| - 1] + [last]]
  }

  /** bytes.Join with newlines. */
  function Join(lines: seq<Bytes>): (s: Bytes) {
    if lines == [] then []
    else if |lines| == 1 then lines[0]
    else lines[0] + [NEWLINE] + Join(lines[1..])
  }

  /** Without the newlines at its end. */
  function Trim(s: Bytes): (r: Bytes)
    ensures r <= s
    ensures r != [] ==> r[|r| - 1] != NEWLINE
    ensures forall i :: |r| <= i < |s| ==> s[i] == NEWLINE
  {
    if s != [] && s[|s| - 1] == NEWLINE then Trim(s[..|s| - 1]) else s
  }

  function LastOf(lines: seq<Bytes>, n: nat): (r: seq<Bytes>) {
    if |lines| > n then lines[|lines| - n..] else lines
  }

  /** The naive form: split everything, keep the last n lines. */
  function LastLines(s: Bytes, n: nat): (r: Bytes) {
    Join(LastOf(Split(s), n))
  }

  /** Where reading backwards from `off` stops: at the start of the file, or once more than n newlines
      have been seen. */
  function StopAt(file: Bytes, n: nat, off: nat): (r: nat)
    requires off <= |file|
    ensures r <= off
    ensures r == 0 || Count(file[r..]) > n
  {
    if off == 0 || Count(file[off..]) > n then off
    else StopAt(file, n, if CHUNK > off then 0 else off - CHUNK)
  }

  lemma StopNext(file: Bytes, n: nat, off: nat)
    requires off <= |file|
    ensures StopAt(file, n, off) ==
            if off == 0 || Count(file[off..]) > n then off else StopAt(file, n, if CHUNK > off then 0 else off - CHUNK)
    ensures StopAt(file, n, 0) == 0
  {
  }

  lemma BlockBefore(file: Bytes, off: nat, rd: nat)
    requires rd <= off <= |file|
    ensures file[off - rd..off] + file[off..] == file[off - rd..]
  {
  }

  /** The reading loop. */
  method ReadBack(file: Bytes, n: nat) returns (buf: Bytes)
    ensures buf == file[StopAt(file, n, |file|)..]
  {
    var size := |file|;
    buf := [];
    var off := size;
    var nl := 0;
    while off > 0 && nl <= n
      invariant 0 <= off <= size
      invariant buf == file[off..] && nl == Count(buf)
      invariant StopAt(file, n, size) == StopAt(file, n, off)
    {
      var rd := CHUNK;
      if rd > off {
        rd := off;
      }
      StopNext(file, n, off);
      BlockBefore(file, off, rd);
      off := off - rd;
      var b := file[off..off + rd];
      buf := b + buf;
      nl := Count(buf);
    }
  }

  method TailLogFile(file: Bytes, n: nat) returns (out: Bytes)
    ensures out == LastLines(Trim(file[StopAt(file, n, |file|)..]), n)
  {
    if |file| == 0 {
      NoLines([], n);
      return [];
    }
    var buf := ReadBack(file, n);
    ghost var read := buf;
    while |buf| > 0 && buf[|buf| - 1] == NEWLINE
      invariant Trim(buf) == Trim(read)
    {
      buf := buf[..|buf| - 1];
    }
    var lines := Split(buf);
    if |lines| > n {
      lines := lines[|lines| - n..];
    }
    out := Join(lines);
  }

  // ---------- Lines of a concatenation

  lemma {:induction false} CountAppend(a: Bytes, b: Bytes)
    ensures Count(a + b) == Count(a) + Count(b)
    decreases |b|
  {
    if b == [] {
      assert a + b == a;
    } else {
      assert (a + b)[..|a + b| - 1] == a + b[..|b| - 1];
      CountAppend(a, b[..|b| - 1]);
    }
  }

  /** The last line of one text and the first of the next become one. */
  function Merge(xs: seq<Bytes>, ys: seq<Bytes>): seq<Bytes>
    requires xs != [] && ys != []
  {
    xs[..|xs| - 1] + [xs[|xs| - 1] + ys[0]] + ys[1..]
  }

  lemma MergeSnoc(xs: seq<Bytes>, ys: seq<Bytes>, c: Byte)
    requires xs != [] && ys != []
    ensures var zs := ys[..|ys| - 1] + [ys[|ys| - 1] + [c]];
            var ms := Merge(xs, ys);
            ms[..|ms| - 1] + [ms[|ms| - 1] + [c]] == Merge(xs, zs)
    ensures Merge(xs, ys + [[]]) == Merge(xs, ys) + [[]]
  {
    if |ys| == 1 {
      assert xs[|xs| - 1] + ys[0] + [c] == xs[|xs| - 1] + (ys[0] + [c]);
    }
  }

  lemma {:induction false} SplitAppend(a: Bytes, b: Bytes)
    ensures Split(a + b) == Merge(Split(a), Split(b))
    decreases |b|
  {
    if b == [] {
      assert a + b == a;
      assert Split(a)[Count(a)] + [] == Split(a)[Count(a)];
    } else {
      var front := b[..|b| - 1];
      assert (a + b)[..|a + b| - 1] == a + front;
      SplitAppend(a, front);
      MergeSnoc(Split(a), Split(front), b[|b| - 1]);
    }
  }

  lemma {:induction false} JoinAppend(xs: seq<Bytes>, ys: seq<Bytes>)
    requires xs != [] && ys != []
    ensures Join(xs + ys) == Join(xs) + [NEWLINE] + Join(ys)
    decreases |xs|
  {
    if |xs| == 1 {
      assert (xs + ys)[1..] == ys;
    } else {
      assert (xs + ys)[1..] == xs[1..] + ys;
      JoinAppend(xs[1..], ys);
      assert xs[0] + [NEWLINE] + (Join(xs[1..]) + [NEWLINE] + Join(ys))
          == (xs[0] + [NEWLINE] + Join(xs[1..])) + [NEWLINE] + Join(ys);
    }
  }

  lemma JoinExtendFirst(x: Bytes, ys: seq<Bytes>)
    requires ys != []
    ensures Join([x + ys[0]] + ys[1..]) == x + Join(ys)
  {
    var zs := [x + ys[0]] + ys[1..];
    assert zs[1..] == ys[1..];
    if |ys| > 1 {
      assert (x + ys[0]) + [NEWLINE] + Join(ys[1..]) == x + (ys[0] + [NEWLINE] + Join(ys[1..]));
    }
  }

  lemma JoinLength(xs: seq<Bytes>, ys: seq<Bytes>)
    requires ys != []
    ensures |Join(xs + ys)| >= |Join(ys)| + (if xs == [] then 0 else 1)
  {
    if xs == [] {
      assert xs + ys == ys;
    } else {
      JoinAppend(xs, ys);
    }
  }

  lemma {:induction false} JoinSplit(s: Bytes)
    ensures Join(Split(s)) == s
  {
    if s != [] {
      var front, last := s[..|s| - 1], s[|s| - 1];
      var lines := Split(front);
      JoinSplit(front);
      assert s == front + [last];
      if last == NEWLINE {
        JoinAppend(lines, [[]]);
        assert Join([[]]) == [];
      } else {
        var k := |lines| - 1;
        assert lines == lines[..k] + [lines[k]];
        if k > 0 {
          JoinAppend(lines[..k], [lines[k]]);
          JoinAppend(lines[..k], [lines[k] + [last]]);
          assert Join(lines[..k]) + [NEWLINE] + (lines[k] + [last])
              == (Join(lines[..k]) + [NEWLINE] + lines[k]) + [last];
        } else {
          assert lines[..k] + [lines[k] + [last]] == [lines[k] + [last]];
        }
      }
    }
  }

  // ---------- What the last lines are

  predicate NoNewlines(lines: seq<Bytes>) {
    forall i :: 0 <= i < |lines| ==> NEWLINE !in lines[i]
  }

  lemma {:induction false} SplitIsPlain(s: Bytes)
    ensures NoNewlines(Split(s))
  {
    if s != [] {
      SplitIsPlain(s[..|s| - 1]);
    }
  }

  lemma {:induction false} NoneCounted(s: Bytes)
    requires NEWLINE !in s
    ensures Count(s) == 0
  {
    if s != [] {
      NoneCounted(s[..|s| - 1]);
    }
  }

  lemma {:induction false} CountJoin(lines: seq<Bytes>)
    requires lines != [] && NoNewlines(lines)
    ensures Count(Join(lines)) == |lines| - 1
  {
    NoneCounted(lines[0]);
    if |lines| > 1 {
      CountJoin(lines[1..]);
      CountAppend(lines[0] + [NEWLINE], Join(lines[1..]));
      CountAppend(lines[0], [NEWLINE]);
      assert Count([NEWLINE]) == 1;
    }
  }

  /** Where a piece of a text begins a line: at its start or behind a newline. */
  predicate AtLineStart(before: Bytes) {
    before == [] || before[|before| - 1] == 10
  }

  /** The last n lines, on the bytes: the end of the text from the start of a line on, with as many newlines in it as keep
      n lines apart, or the whole text if it has no more than n. */
  lemma LastLinesAre(s: Bytes, n: nat) returns (before: Bytes)
    requires n > 0
    ensures s == before + LastLines(s, n) && AtLineStart(before)
    ensures Count(LastLines(s, n)) == (if Count(s) < n then Count(s) else n - 1)
    ensures before == [] <==> Count(s) < n
  {
    var lines := Split(s);
    JoinSplit(s);
    SplitIsPlain(s);
    if |lines| <= n {
      before := [];
      CountJoin(lines);
    } else {
      var front, last := lines[..|lines| - n], lines[|lines| - n..];
      assert lines == front + last;
      JoinAppend(front, last);
      CountJoin(last);
      before := Join(front) + [NEWLINE];
    }
  }

  // ---------- When part of the file is enough

  /** Is the part `b` enough to see the last n lines of a + b, b not ending in a newline? */
  predicate Shows(a: Bytes, b: Bytes, n: nat) {
    a == [] || Count(b) >= n || (Count(b) + 1 == n && a[|a| - 1] == NEWLINE)
  }

  lemma LastLineEmpty(a: Bytes)
    ensures Split(a)[Count(a)] == [] <==> a == [] || a[|a| - 1] == NEWLINE
  {
  }

  lemma EnoughLines(xs: seq<Bytes>, ys: seq<Bytes>, n: nat)
    requires xs != [] && |ys| > n
    ensures LastOf(Merge(xs, ys), n) == LastOf(ys, n)
  {
  }

  /** With one line too few, only an empty line may be missing its beginning. */
  lemma OneLineShort(xs: seq<Bytes>, ys: seq<Bytes>)
    requires xs != [] && ys != []
    ensures Join(LastOf(Merge(xs, ys), |ys|)) == Join(ys) <==> xs[|xs| - 1] == []
  {
    var x := xs[|xs| - 1];
    var joint := [x + ys[0]] + ys[1..];
    assert LastOf(Merge(xs, ys), |ys|) == joint;
    JoinExtendFirst(x, ys);
    if x == [] {
      assert x + Join(ys) == Join(ys);
    } else {
      assert |x + Join(ys)| > |Join(ys)|;
    }
  }

  lemma MoreLinesShort(xs: seq<Bytes>, ys: seq<Bytes>, n: nat)
    requires xs != [] && 0 < |ys| < n
    requires |xs| > 1 || xs[0] != []
    ensures |Join(LastOf(Merge(xs, ys), n))| > |Join(ys)|
  {
    var x := xs[|xs| - 1];
    var joint := [x + ys[0]] + ys[1..];
    var shown := LastOf(Merge(xs, ys), n);
    var before := shown[..|shown| - |ys|];
    assert Merge(xs, ys) == xs[..|xs| - 1] + joint;
    assert shown == before + joint;
    JoinExtendFirst(x, ys);
    JoinLength(before, joint);
  }

  lemma PartShowsExactly(a: Bytes, b: Bytes, n: nat)
    ensures LastLines(b, n) == LastLines(a + b, n) <==> Shows(a, b, n)
  {
    var xs, ys := Split(a), Split(b);
    SplitAppend(a, b);
    LastLineEmpty(a);
    if a == [] {
      assert a + b == b;
    } else if Count(b) >= n {
      EnoughLines(xs, ys, n);
    } else if Count(b) + 1 == n {
      OneLineShort(xs, ys);
    } else {
      MoreLinesShort(xs, ys, n);
    }
  }

  lemma TrimAppend(a: Bytes, b: Bytes)
    ensures Trim(a + b) == if Trim(b) == [] then Trim(a) else a + Trim(b)
    decreases |b|
  {
    if b == [] {
      assert a + b == a;
    } else if b[|b| - 1] == NEWLINE {
      assert (a + b)[..|a + b| - 1] == a + b[..|b| - 1];
      TrimAppend(a, b[..|b| - 1]);
    }
  }

  /** The condition on a file cut into the part not read and the part read. */
  predicate Enough(a: Bytes, b: Bytes, n: nat) {
    if Trim(b) != [] then Shows(a, Trim(b), n) else n == 0 || Trim(a) == []
  }

  lemma NoLines(s: Bytes, n: nat)
    ensures LastLines([], n) == []
    ensures n == 0 ==> LastLines(s, n) == []
    ensures n > 0 && s != [] && s[|s| - 1] != NEWLINE ==> LastLines(s, n) != []
  {
    assert Split([]) == [[]];
    if n > 0 && s != [] && s[|s| - 1] != NEWLINE {
      var shown := LastOf(Split(s), n);
      var k := |shown| - 1;
      assert shown == shown[..k] + [shown[k]];
      assert shown[k] == Split(s)[Count(s)] != [];
      JoinLength(shown[..k], [shown[k]]);
    }
  }

  lemma PartIsEnough(file: Bytes, n: nat, off: nat)
    requires off <= |file|
    ensures LastLines(Trim(file[off..]), n) == LastLines(Trim(file), n) <==> Enough(file[..off], file[off..], n)
  {
    var a, b := file[..off], file[off..];
    assert file == a + b;
    TrimAppend(a, b);
    if Trim(b) != [] {
      PartShowsExactly(a, Trim(b), n);
    } else {
      NoLines(Trim(a), n);
    }
  }

  /** The backward read gives the last n lines of the whole file exactly under that condition. */
  lemma TailExact(file: Bytes, n: nat)
    ensures var off := StopAt(file, n, |file|);
            LastLines(Trim(file[off..]), n) == LastLines(Trim(file), n) <==> Enough(file[..off], file[off..], n)
  {
    PartIsEnough(file, n, StopAt(file, n, |file|));
  }

  // ---------- The condition in terms of the file alone

  function TrailingNewlines(file: Bytes): nat {
    |file| - |Trim(file)|
  }

  /** Newlines among the last m bytes. */
  function CountLast(file: Bytes, m: nat): nat
    requires m <= |file|
  {
    Count(file[|file| - m..])
  }

  /** The last m bytes have more than n newlines, so a read that has come this far goes no further; but without the
      newlines at the end of the file they do not show its last n lines. */
  predicate CutsShort(file: Bytes, n: nat, m: nat)
    requires m < |file|
  {
    var c, k := CountLast(file, m), TrailingNewlines(file);
    c > n && (m <= k || c < n + k - 1 || (c == n + k - 1 && file[|file| - m - 1] != NEWLINE))
  }

  /** No whole number of blocks cuts the file short. */
  ghost predicate ReadsFar(file: Bytes, n: nat) {
    forall j :: 0 < j && Blocks(j) < |file| ==> !CutsShort(file, n, Blocks(j))
  }

  function Blocks(j: nat): nat {
    CHUNK * j
  }

  /** No block boundary among the last m bytes has more than n newlines behind it. */
  ghost predicate Passed(file: Bytes, n: nat, m: nat)
    requires m <= |file|
  {
    forall h :: 0 < h && Blocks(h) < m ==> CountLast(file, Blocks(h)) <= n
  }

  /** The read stops at the start of the file or at a block boundary. */
  lemma {:induction false} StopsAtBlock(file: Bytes, n: nat, from: nat, i: nat) returns (j: nat)
    requires from <= |file| && from == |file| - Blocks(i)
    ensures StopAt(file, n, from) == 0 || StopAt(file, n, from) == |file| - Blocks(j)
    decreases from
  {
    StopNext(file, n, from);
    j := i;
    if from > CHUNK && Count(file[from..]) <= n {
      j := StopsAtBlock(file, n, from - CHUNK, i + 1);
    }
  }

  /** A boundary that it has passed has no more than n newlines behind it. */
  lemma {:induction false} PassedAt(file: Bytes, n: nat, from: nat, at: nat, d: nat)
    requires from <= |file| && from == at + Blocks(d) && StopAt(file, n, from) < at
    ensures Count(file[at..]) <= n
    decreases d
  {
    StopNext(file, n, from);
    if d > 0 {
      PassedAt(file, n, from - CHUNK, at, d - 1);
    }
  }

  lemma NonePassed(file: Bytes, n: nat, off: nat)
    requires off == StopAt(file, n, |file|)
    ensures Passed(file, n, |file| - off)
  {
    forall h | 0 < h && Blocks(h) < |file| - off
      ensures CountLast(file, Blocks(h)) <= n
    {
      PassedAt(file, n, |file|, |file| - Blocks(h), h);
    }
  }

  lemma {:induction false} CountTrim(s: Bytes)
    ensures Count(s) == Count(Trim(s)) + TrailingNewlines(s)
  {
    if s != [] && s[|s| - 1] == NEWLINE {
      CountTrim(s[..|s| - 1]);
    }
  }

  /** A longer part shows no less. */
  lemma MoreShowsMore(file: Bytes, n: nat, m: nat, more: nat)
    requires m < more < |file| && CountLast(file, m) > n && !CutsShort(file, n, m)
    ensures !CutsShort(file, n, more)
  {
    var cut, mid := |file| - more, |file| - m;
    assert file[cut..] == file[cut..mid] + file[mid..];
    CountAppend(file[cut..mid], file[mid..]);
    assert file[cut..mid][|file[cut..mid]| - 1] == file[mid - 1];
  }

  lemma TrailingOf(a: Bytes, b: Bytes)
    ensures Trim(b) == [] ==> Trim(a + b) == Trim(a) && |b| <= TrailingNewlines(a + b)
    ensures Trim(b) != [] ==> TrailingNewlines(a + b) == TrailingNewlines(b) < |b| && Trim(a + b) != []
  {
    TrimAppend(a, b);
  }

  lemma EnoughAtBlock(file: Bytes, a: Bytes, b: Bytes, n: nat, m: nat)
    requires file == a + b && a != [] && Count(b) > n && m == |b|
    ensures Enough(a, b, n) <==> n == 0 || Trim(file) == [] || !CutsShort(file, n, m)
  {
    TrailingOf(a, b);
    CountTrim(b);
    assert file[|file| - m..] == b;
    assert file[|file| - m - 1] == a[|a| - 1];
  }

  lemma NoneCutsShort(file: Bytes, n: nat, j: nat)
    requires 0 < j && Blocks(j) < |file| && Passed(file, n, Blocks(j)) && CountLast(file, Blocks(j)) > n
    ensures ReadsFar(file, n) <==> !CutsShort(file, n, Blocks(j))
  {
    if !CutsShort(file, n, Blocks(j)) {
      forall h | 0 < h && Blocks(h) < |file|
        ensures !CutsShort(file, n, Blocks(h))
      {
        if h > j {
          MoreShowsMore(file, n, Blocks(j), Blocks(h));
        } else if h < j {
          assert Blocks(h) < Blocks(j);
        }
      }
    }
  }

  lemma CutInTwo(file: Bytes, off: nat)
    requires off <= |file|
    ensures file == file[..off] + file[off..] && |file[off..]| == |file| - off
  {
  }

  lemma WholeFileRead(file: Bytes, n: nat)
    requires Passed(file, n, |file|)
    ensures ReadsFar(file, n) && Enough([], file, n)
  {
    assert Trim([]) == [];
  }

  /** The condition, stated before anything is read: the tail is right exactly if nothing is asked for, the file has
      only newlines, or no block boundary cuts it short. */
  lemma TailExactly(file: Bytes, n: nat)
    ensures LastLines(Trim(file[StopAt(file, n, |file|)..]), n) == LastLines(Trim(file), n) <==>
            n == 0 || Trim(file) == [] || ReadsFar(file, n)
  {
    var off := StopAt(file, n, |file|);
    var j := StopsAtBlock(file, n, |file|, 0);
    NonePassed(file, n, off);
    PartIsEnough(file, n, off);
    if off > 0 {
      CutInTwo(file, off);
      EnoughAtBlock(file, file[..off], file[off..], n, Blocks(j));
      NoneCutsShort(file, n, j);
    } else {
      WholeFileRead(file, n);
      assert file[..off] == [] && file[off..] == file;
    }
  }

  /** A file that does not end in two newlines is always read far enough. */
  lemma TailOfLog(file: Bytes, n: nat)
    requires |file| < 2 || file[|file| - 2] != NEWLINE || file[|file| - 1] != NEWLINE
    ensures LastLines(Trim(file[StopAt(file, n, |file|)..]), n) == LastLines(Trim(file), n)
  {
    TailExactly(file, n);
    assert TrailingNewlines(file) <= 1;
  }

  function Newlines(k: nat): (s: Bytes)
    ensures |s| == k && Count(s) == k && Trim(s) == []
    ensures forall i :: 0 <= i < k ==> s[i] == NEWLINE
  {
    if k == 0 then []
    else
      var s := Newlines(k - 1);
      assert (s + [NEWLINE])[..k - 1] == s;
      s + [NEWLINE]
  }

  /** A line followed by a block of newlines is not found: the read stops inside the newlines. */
  lemma TrailingNewlinesHideLines()
    ensures var file := [65] + Newlines(CHUNK);
            && LastLines(Trim(file), 1) == [65]
            && LastLines(Trim(file[StopAt(file, 1, |file|)..]), 1) == []
  {
    var file := [65] + Newlines(CHUNK);
    assert file[1..] == Newlines(CHUNK) && file[|file|..] == [];
    assert StopAt(file, 1, |file|) == StopAt(file, 1, 1) == 1;
    TrimAppend([65], Newlines(CHUNK));
    assert Join(Split([65])) == [65] by { JoinSplit([65]); }
    assert Count([65]) == Count([]) by { assert [65][..0] == []; }
    NoLines([], 1);
  }
}
