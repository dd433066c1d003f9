/** The sliding replay window of the secure channel: a 64-bit map standing for the set of sequence numbers
    accepted so far. The test is that of section 4.1.2.6 of RFC 6347; unlike there, a number is recorded when it is
    tested, before its envelope has been opened. */
module ReplayWindow {

  const WINDOW_SIZE := 64
  const UINT64_LIMIT := 0x1_0000_0000_0000_0000

  type Uint64 = n: int | 0 <= n < UINT64_LIMIT

  // ---------- uint64 as a word of 64 bits

  /** The bits of a uint64, lowest first. */
  type Word = w: seq<bool> | |w| == 64 witness seq(64, _ => false)

  const ZERO: Word := seq(64, _ => false)
  const ONE: Word := seq(64, i => i == 0)

  function ShiftLeft(w: Word, n: nat): Word {
    seq(64, i requires 0 <= i < 64 => i >= n && w[i - n])
  }

  function Or(a: Word, b: Word): Word {
    seq(64, i requires 0 <= i < 64 => a[i] || b[i])
  }

  function And(a: Word, b: Word): Word {
    seq(64, i requires 0 <= i < 64 => a[i] && b[i])
  }

  /** Masking with a single bit tests that bit. */
  lemma MaskTests(w: Word, d: nat)
    requires d < 64
    ensures And(w, ShiftLeft(ONE, d)) != ZERO <==> w[d]
  {
    var m := And(w, ShiftLeft(ONE, d));
    assert m[d] == w[d];
    if !w[d] {
      assert forall i :: 0 <= i < 64 ==> m[i] == ZERO[i];
    }
  }

  // ---------- What the map stands for

  /** The window as a specification: the largest number accepted and everything accepted so far. */
  datatype Window = Window(maxSeq: nat, accepted: set<nat>) {
    predicate Valid() {
      && (forall s :: s in accepted ==> 1 <= s <= maxSeq)
      && (maxSeq > 0 ==> maxSeq in accepted)
    }

    /** Never zero, never twice, and no more than 63 behind. */
    predicate Accepts(s: nat) {
      s != 0 && s !in accepted && (s > maxSeq || maxSeq - s < WINDOW_SIZE)
    }

    function After(s: nat): (w: Window)
      requires Valid()
      ensures w.Valid()
    {
      if Accepts(s) then Window(if s > maxSeq then s else maxSeq, accepted + {s}) else this
    }
  }

  const EMPTY := Window(0, {})

  /** Bit d of the map says whether maxSeq - d has been accepted. */
  ghost predicate Maps(bitmap: Word, w: Window) {
    forall d :: 0 <= d < WINDOW_SIZE ==> (bitmap[d] <==> d <= w.maxSeq && w.maxSeq - d in w.accepted)
  }

  class ReplayWindow {
    var maxSeq: Uint64
    var bitmap: Word
    ghost var window: Window

    ghost predicate Valid()
      reads this
    {
      window.Valid() && maxSeq == window.maxSeq && Maps(bitmap, window)
    }

    constructor ()
      ensures Valid() && window == EMPTY
    {
      maxSeq, bitmap, window := 0, ZERO, EMPTY;
    }

    method Check(sequence: Uint64) returns (ok: bool)
      requires Valid()
      modifies this
      ensures Valid()
      ensures ok == old(window).Accepts(sequence)
      ensures window == old(window).After(sequence)
    {
      window := window.After(sequence);
      if sequence == 0 {
        return false;
      }
      if sequence > maxSeq {
        var shift := sequence - maxSeq;
        if shift >= WINDOW_SIZE {
          bitmap := ZERO;
        } else {
          bitmap := ShiftLeft(bitmap, shift);
        }
        maxSeq := sequence;
        bitmap := Or(bitmap, ONE);
        return true;
      }
      var diff := maxSeq - sequence;
      if diff >= WINDOW_SIZE {
        return false;
      }
      var bit := ShiftLeft(ONE, diff);
      MaskTests(bitmap, diff);
      if And(bitmap, bit) != ZERO {
        return false;
      }
      bitmap := Or(bitmap, bit);
      return true;
    }
  }

  // ---------- Runs

  function WindowAfter(arrivals: seq<nat>): (w: Window)
    ensures w.Valid()
  {
    if arrivals == [] then EMPTY
    else WindowAfter(arrivals[..|arrivals| - 1]).After(arrivals[|arrivals| - 1])
  }

  function Largest(arrivals: seq<nat>): nat {
    if arrivals == [] then 0
    else
      var m, last := Largest(arrivals[..|arrivals| - 1]), arrivals[|arrivals| - 1];
      if last > m then last else m
  }

  /** The window knows the largest arrival, and has accepted every arrival that is not 64 or more behind it. */
  lemma {:induction false} WindowKnows(arrivals: seq<nat>)
    ensures WindowAfter(arrivals).maxSeq == Largest(arrivals)
    ensures forall s :: s in WindowAfter(arrivals).accepted ==> s in arrivals
    ensures forall s :: s in arrivals && s != 0 ==>
      s in WindowAfter(arrivals).accepted || Largest(arrivals) - s >= WINDOW_SIZE
  {
    if arrivals != [] {
      var front := arrivals[..|arrivals| - 1];
      WindowKnows(front);
      assert arrivals == front + [arrivals[|arrivals| - 1]];
    }
  }

  /** Acceptance in terms of the arrivals alone: a number is accepted exactly on its first arrival, if it is not
      zero and less than 64 behind the largest number that has arrived. */
  lemma AcceptsFirstArrival(arrivals: seq<nat>, s: nat)
    ensures WindowAfter(arrivals).Accepts(s) <==>
            s != 0 && s !in arrivals && (s > Largest(arrivals) || Largest(arrivals) - s < WINDOW_SIZE)
  {
    WindowKnows(arrivals);
  }

  /** No number is accepted twice. */
  lemma NeverTwice(arrivals: seq<nat>, i: nat, j: nat)
    requires i < j < |arrivals| && arrivals[i] == arrivals[j]
    ensures !WindowAfter(arrivals[..j]).Accepts(arrivals[j])
  {
    AcceptsFirstArrival(arrivals[..j], arrivals[j]);
    assert arrivals[..j][i] == arrivals[j];
  }
}
