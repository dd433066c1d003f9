/** The secure channel: directional keys, nonces made from a counter, and envelopes that survive loss,
    duplication and reordering. The cipher and the key derivation are parameters; of the cipher only
    that opening undoes sealing, and that sealing adds a tag of 16 bytes, is used. */
module SecureSession {
  import opened ByteStrings
  import opened ReplayWindow

  const ENVELOPE_VERSION: Byte := 0x01
  const ENVELOPE_HEADER := 9
  const GCM_TAG_SIZE := 16
  const NONCE_SIZE := 12

  type Nonce = n: Bytes | |n| == NONCE_SIZE witness [0, 0, 0, 0, 0, 0, 0, 0, 0, 0, 0, 0]

  datatype Option<T> = None | Some(value: T)

  datatype Error = TooShort | UnknownVersion(version: Byte) | Replay(sequence: Uint64) | BadCiphertext

  datatype Result = Ok(plaintext: Bytes) | Err(error: Error)

  /** AES-256-GCM, as functions of key, nonce and text. */
  datatype Aead = Aead(seal: (Bytes, Nonce, Bytes) -> Bytes, open: (Bytes, Nonce, Bytes) -> Option<Bytes>) {
    ghost predicate Correct() {
      forall k: Bytes, n: Nonce, p: Bytes ::
        open(k, n, seal(k, n, p)) == Some(p) && |seal(k, n, p)| == |p| + GCM_TAG_SIZE
    }
  }

  // ---------- Big-endian numbers

  /** The low k bytes of n, highest first. */
  function BigEndian(n: nat, k: nat): (r: Bytes)
    ensures |r| == k
  {
    if k == 0 then [] else BigEndian(n / 256, k - 1) + [n % 256]
  }

  function FromBigEndian(bs: Bytes): (n: nat) {
    if bs == [] then 0
    else
      var low: int := bs[|bs| - 1];
      FromBigEndian(bs[..|bs| - 1]) * 256 + low
  }

  function Pow256(k: nat): (p: nat)
    ensures p > 0
  {
    if k == 0 then 1 else Pow256(k - 1) * 256
  }

  lemma {:induction false} BigEndianRoundTrip(n: nat, k: nat)
    requires n < Pow256(k)
    ensures FromBigEndian(BigEndian(n, k)) == n
  {
    if k > 0 {
      BigEndianRoundTrip(n / 256, k - 1);
      var bs := BigEndian(n, k);
      assert bs[..|bs| - 1] == BigEndian(n / 256, k - 1);
    }
  }

  lemma {:induction false} FromBigEndianBound(bs: Bytes)
    ensures FromBigEndian(bs) < Pow256(|bs|)
  {
    if bs != [] {
      FromBigEndianBound(bs[..|bs| - 1]);
    }
  }

  lemma Pow256Is64Bit()
    ensures Pow256(8) == UINT64_LIMIT
  {
    assert Pow256(4) == 0x1_0000_0000;
    assert Pow256(6) == 0x1_0000_0000_0000;
  }

  // ---------- Nonces

  function Xor(a: nat, b: nat): (r: nat)
    decreases a + b
  {
    if a == 0 && b == 0 then 0
    else (if a % 2 != b % 2 then 1 else 0) + 2 * Xor(a / 2, b / 2)
  }

  lemma {:induction false} XorBound(a: nat, b: nat, limit: nat)
    requires a < limit && b < limit && limit in {1, 2, 4, 8, 16, 32, 64, 128, 256}
    ensures Xor(a, b) < limit
  {
    if limit > 1 {
      XorBound(a / 2, b / 2, limit / 2);
    }
  }

  lemma {:induction false} XorCancels(a: nat, b: nat)
    ensures Xor(a, Xor(a, b)) == b
    decreases a + b
  {
    if a != 0 || b != 0 {
      XorCancels(a / 2, b / 2);
      var x := Xor(a, b);
      assert x / 2 == Xor(a / 2, b / 2);
    }
  }

  function XorBytes(a: Byte, b: Byte): (r: Byte) {
    XorBound(a, b, 256);
    Xor(a, b)
  }

  /** The sequence number, padded on the left to the nonce size. */
  function SequenceBytes(sequence: Uint64): Nonce {
    [0, 0, 0, 0] + BigEndian(sequence, 8)
  }

  /** The per-record nonce of section 5.3 of RFC 8446: the base xor the padded sequence number. */
  function NonceFor(base: Nonce, sequence: Uint64): Nonce {
    seq(NONCE_SIZE, i requires 0 <= i < NONCE_SIZE => XorBytes(base[i], SequenceBytes(sequence)[i]))
  }

  /** Different sequence numbers give different nonces. */
  lemma NoncesDiffer(base: Nonce, s: Uint64, t: Uint64)
    requires s != t
    ensures NonceFor(base, s) != NonceFor(base, t)
  {
    var n, m := NonceFor(base, s), NonceFor(base, t);
    if n == m {
      forall i | 0 <= i < 8
        ensures BigEndian(s, 8)[i] == BigEndian(t, 8)[i]
      {
        assert n[i + 4] == m[i + 4];
        XorCancels(base[i + 4], SequenceBytes(s)[i + 4]);
        XorCancels(base[i + 4], SequenceBytes(t)[i + 4]);
      }
      assert BigEndian(s, 8) == BigEndian(t, 8);
      Pow256Is64Bit();
      BigEndianRoundTrip(s, 8);
      BigEndianRoundTrip(t, 8);
    }
  }

  method MakeNonce(base: Nonce, sequence: Uint64) returns (nonce: Nonce)
    ensures nonce == NonceFor(base, sequence)
  {
    var seqBytes := SequenceBytes(sequence);
    nonce := base;
    for i := 0 to NONCE_SIZE
      invariant forall k :: 0 <= k < i ==> nonce[k] == XorBytes(base[k], seqBytes[k])
      invariant forall k :: i <= k < NONCE_SIZE ==> nonce[k] == base[k]
    {
      nonce := nonce[i := XorBytes(nonce[i], seqBytes[i])];
    }
  }

  // ---------- Keys

  /** One direction of a channel. */
  datatype Direction = Direction(key: Bytes, nonce: Nonce)

  const KEY_MATERIAL := 88

  /** The derived bytes are the two keys and then the two nonces, those of `first` in front each time. */
  predicate Fills(material: Bytes, first: Direction, second: Direction) {
    && |first.key| == 32 && |second.key| == 32 && |material| >= KEY_MATERIAL
    && first.key + second.key + first.nonce + second.nonce == material[..KEY_MATERIAL]
  }

  /** There is one way to fill two directions. */
  lemma FilledOnce(material: Bytes, a: Direction, b: Direction, c: Direction, d: Direction)
    requires Fills(material, a, b) && Fills(material, c, d)
    ensures a == c && b == d
  {
    SplitMaterial(material, a, b);
    SplitMaterial(material, c, d);
  }

  lemma SplitMaterial(material: Bytes, a: Direction, b: Direction)
    requires Fills(material, a, b)
    ensures a == Direction(material[..32], material[64..76]) && b == Direction(material[32..64], material[76..88])
  {
    var m := material[..KEY_MATERIAL];
    assert a.key == m[..32] && b.key == m[32..64] && a.nonce == m[64..76] && b.nonce == m[76..88];
  }

  /** Key derivation: the output stream for a secret, a salt and an info string. */
  type Hkdf = (Bytes, Bytes, string) -> Bytes

  const INFO := "securechan-v1"

  class Session {
    const aead: Aead
    const sending: Direction
    const receiving: Direction
    var sendSeq: Uint64
    const recvWindow: ReplayWindow

    constructor (aead: Aead, sending: Direction, receiving: Direction)
      ensures this.aead == aead && this.sending == sending && this.receiving == receiving
      ensures sendSeq == 0 && fresh(recvWindow) && recvWindow.Valid() && recvWindow.window == EMPTY
    {
      this.aead, this.sending, this.receiving := aead, sending, receiving;
      sendSeq := 0;
      recvWindow := new ReplayWindow();
    }

    method Encrypt(plaintext: Bytes) returns (envelope: Bytes)
      modifies this
      ensures sendSeq == (old(sendSeq) + 1) % UINT64_LIMIT
      ensures envelope == Envelope(aead, sending, sendSeq, plaintext)
    {
      sendSeq := (sendSeq + 1) % UINT64_LIMIT;
      var nonce := MakeNonce(sending.nonce, sendSeq);
      var ciphertext := aead.seal(sending.key, nonce, plaintext);
      envelope := [ENVELOPE_VERSION] + BigEndian(sendSeq, 8) + ciphertext;
    }

    method Decrypt(envelope: Bytes) returns (r: Result)
      requires recvWindow.Valid()
      modifies recvWindow
      ensures recvWindow.Valid()
      ensures (recvWindow.window, r) == Received(aead, receiving, old(recvWindow.window), envelope)
    {
      if |envelope| < ENVELOPE_HEADER + GCM_TAG_SIZE {
        return Err(TooShort);
      }
      if envelope[0] != ENVELOPE_VERSION {
        return Err(UnknownVersion(envelope[0]));
      }
      var sequence := SequenceOf(envelope);
      var ok := recvWindow.Check(sequence);
      if !ok {
        return Err(Replay(sequence));
      }
      var nonce := MakeNonce(receiving.nonce, sequence);
      var text := aead.open(receiving.key, nonce, envelope[ENVELOPE_HEADER..]);
      match text {
        case None => r := Err(BadCiphertext);
        case Some(plaintext) => r := Ok(plaintext);
      }
    }
  }

  /** DeriveSession: the stream of the key derivation is read in four pieces. */
  method DeriveSession(hkdf: Hkdf, aead: Aead, sharedSecret: Bytes, agentEphPub: Bytes, masterEphPub: Bytes, isMaster: bool)
    returns (s: Session)
    requires |hkdf(sharedSecret, agentEphPub + masterEphPub, INFO)| >= KEY_MATERIAL
    ensures fresh(s) && fresh(s.recvWindow) && s.recvWindow.Valid() && s.recvWindow.window == EMPTY
    ensures s.aead == aead && s.sendSeq == 0
    ensures var material := hkdf(sharedSecret, agentEphPub + masterEphPub, INFO);
            if isMaster then Fills(material, s.sending, s.receiving) else Fills(material, s.receiving, s.sending)
  {
    var salt := agentEphPub + masterEphPub;
    var material := hkdf(sharedSecret, salt, INFO);
    var keys: seq<Bytes> := [];
    var read := 0;
    for i := 0 to 4
      invariant |keys| == i
      invariant read == [0, 32, 64, 76, 88][i]
      invariant i > 0 ==> keys[0] == material[..32]
      invariant i > 1 ==> keys[1] == material[32..64]
      invariant i > 2 ==> keys[2] == material[64..76]
      invariant i > 3 ==> keys[3] == material[76..88]
    {
      var size := if i >= 2 then NONCE_SIZE else 32;
      keys := keys + [material[read..read + size]];
      read := read + size;
    }
    var m2a, a2m := Direction(keys[0], keys[2]), Direction(keys[1], keys[3]);
    assert material[..32] + material[32..64] + material[64..76] + material[76..88] == material[..88];
    if isMaster {
      s := new Session(aead, m2a, a2m);
    } else {
      s := new Session(aead, a2m, m2a);
    }
  }

  // ---------- Envelopes

  function Envelope(aead: Aead, d: Direction, sequence: Uint64, plaintext: Bytes): Bytes {
    [ENVELOPE_VERSION] + BigEndian(sequence, 8) + aead.seal(d.key, NonceFor(d.nonce, sequence), plaintext)
  }

  function SequenceOf(envelope: Bytes): Uint64
    requires |envelope| >= ENVELOPE_HEADER
  {
    FromBigEndianBound(envelope[1..9]);
    Pow256Is64Bit();
    FromBigEndian(envelope[1..9])
  }

  /** One Decrypt: the window afterwards, and the result. */
  function Received(aead: Aead, d: Direction, w: Window, envelope: Bytes): (Window, Result)
    requires w.Valid()
  {
    if |envelope| < ENVELOPE_HEADER + GCM_TAG_SIZE then (w, Err(TooShort))
    else if envelope[0] != ENVELOPE_VERSION then (w, Err(UnknownVersion(envelope[0])))
    else
      var s := SequenceOf(envelope);
      if !w.Accepts(s) then (w, Err(Replay(s)))
      else
        match aead.open(d.key, NonceFor(d.nonce, s), envelope[ENVELOPE_HEADER..])
        case None => (w.After(s), Err(BadCiphertext))
        case Some(p) => (w.After(s), Ok(p))
  }

  /** Which errors there are, on the bytes: fewer than 25 of them, a first byte other than 1, or, with the window moved on, a
      text that does not open; before that, a number the window does not take. The first two leave the window alone. */
  lemma DecryptRefusals(aead: Aead, d: Direction, w: Window, e: Bytes)
    requires w.Valid()
    ensures var (now, r) := Received(aead, d, w, e);
            && (r == Err(TooShort) <==> |e| < 25)
            && (r.Err? && r.error.UnknownVersion? <==> |e| >= 25 && e[0] != 1)
            && (r.Err? && r.error.Replay? <==> |e| >= 25 && e[0] == 1 && !w.Accepts(FromBigEndian(e[1..9])))
            && (now != w ==> |e| >= 25 && e[0] == 1 && w.Accepts(FromBigEndian(e[1..9])))
  {
  }

  /** Long enough, and of the known version: the sequence number is put to the window. */
  predicate Numbered(e: Bytes) {
    |e| >= ENVELOPE_HEADER + GCM_TAG_SIZE && e[0] == ENVELOPE_VERSION
  }

  lemma EnvelopeIsNumbered(aead: Aead, d: Direction, s: Uint64, p: Bytes)
    requires aead.Correct()
    ensures Numbered(Envelope(aead, d, s, p)) && SequenceOf(Envelope(aead, d, s, p)) == s
  {
    Pow256Is64Bit();
    BigEndianRoundTrip(s, 8);
    assert Envelope(aead, d, s, p)[1..9] == BigEndian(s, 8);
  }

  /** A genuine envelope is opened if the window accepts its number, and is otherwise refused as a replay. */
  lemma GenuineEnvelope(aead: Aead, d: Direction, w: Window, s: Uint64, p: Bytes)
    requires aead.Correct() && w.Valid()
    ensures Received(aead, d, w, Envelope(aead, d, s, p)) ==
            (w.After(s), if w.Accepts(s) then Ok(p) else Err(Replay(s)))
  {
    var e := Envelope(aead, d, s, p);
    EnvelopeIsNumbered(aead, d, s, p);
    assert e[ENVELOPE_HEADER..] == aead.seal(d.key, NonceFor(d.nonce, s), p);
  }

  // ---------- A whole channel

  /** The numbers a fresh session gives to its first calls of Encrypt. */
  lemma {:induction false} SequenceNumbers(n: nat)
    requires n < UINT64_LIMIT
    ensures CounterAfter(n) == n
  {
    if n > 0 {
      SequenceNumbers(n - 1);
    }
  }

  function CounterAfter(calls: nat): Uint64 {
    if calls == 0 then 0 else (CounterAfter(calls - 1) + 1) % UINT64_LIMIT
  }

  /** The i-th envelope (from 0) of a session that encrypts `ps` in order. */
  function Sent(aead: Aead, d: Direction, ps: seq<Bytes>, i: nat): Bytes
    requires i < |ps|
  {
    Envelope(aead, d, CounterAfter(i + 1), ps[i])
  }

  /** The receiver's window after a list of arrivals, which may be any byte strings at all. */
  function Listening(aead: Aead, d: Direction, arrivals: seq<Bytes>): (w: Window)
    ensures w.Valid()
  {
    if arrivals == [] then EMPTY
    else
      var last := |arrivals| - 1;
      var before := Listening(aead, d, arrivals[..last]);
      ReceivedKeepsWindow(aead, d, before, arrivals[last]);
      Received(aead, d, before, arrivals[last]).0
  }

  lemma ReceivedKeepsWindow(aead: Aead, d: Direction, w: Window, e: Bytes)
    requires w.Valid()
    ensures Received(aead, d, w, e).0.Valid()
  {
  }

  /** The sequence numbers of the arrivals that have one, in order. */
  function Seen(arrivals: seq<Bytes>): (ns: seq<nat>) {
    if arrivals == [] then []
    else
      var last := |arrivals| - 1;
      Seen(arrivals[..last]) + if Numbered(arrivals[last]) then [SequenceOf(arrivals[last])] else []
  }

  /** The window follows the numbers that arrive, whether or not the envelopes that carry them open. */
  lemma {:induction false} ListeningIsWindow(aead: Aead, d: Direction, arrivals: seq<Bytes>)
    ensures Listening(aead, d, arrivals) == WindowAfter(Seen(arrivals))
  {
    if arrivals != [] {
      var last := |arrivals| - 1;
      var before := Seen(arrivals[..last]);
      ListeningIsWindow(aead, d, arrivals[..last]);
      if Numbered(arrivals[last]) {
        var s := SequenceOf(arrivals[last]);
        assert (before + [s])[..|before|] == before;
        assert WindowAfter(before + [s]) == WindowAfter(before).After(s);
      } else {
        assert before + [] == before;
      }
    }
  }

  lemma {:induction false} LargestReached(ns: seq<nat>)
    ensures forall k :: 0 <= k < |ns| ==> ns[k] <= Largest(ns)
    ensures ns == [] || exists k :: 0 <= k < |ns| && ns[k] == Largest(ns)
  {
    if ns != [] {
      var front := ns[..|ns| - 1];
      LargestReached(front);
      if front != [] && Largest(ns) == Largest(front) {
        var k :| 0 <= k < |front| && front[k] == Largest(front);
        assert ns[k] == Largest(ns);
      } else {
        assert ns[|ns| - 1] == Largest(ns);
      }
    }
  }

  /** Is one of the numbers 64 or more beyond s? */
  predicate Outrun(ns: seq<nat>, s: nat) {
    exists n :: n in ns && n >= s + WINDOW_SIZE
  }

  lemma OutrunByLargest(ns: seq<nat>, s: nat)
    requires s > 0
    ensures Outrun(ns, s) <==> Largest(ns) >= s + WINDOW_SIZE
  {
    LargestReached(ns);
    if Outrun(ns, s) {
      var n :| n in ns && n >= s + WINDOW_SIZE;
      var k :| 0 <= k < |ns| && ns[k] == n;
    } else if ns != [] {
      assert Largest(ns) in ns;
    }
  }

  /** Delivery after any byte strings whatever: a genuine envelope yields its own plaintext exactly if its number is
      not zero, has not been seen, and no number 64 or more beyond it has; otherwise it is refused as a replay. */
  lemma DeliveryAmidAnything(aead: Aead, d: Direction, arrivals: seq<Bytes>, s: Uint64, p: Bytes)
    requires aead.Correct()
    ensures Received(aead, d, Listening(aead, d, arrivals), Envelope(aead, d, s, p)).1 ==
            if s != 0 && s !in Seen(arrivals) && !Outrun(Seen(arrivals), s) then Ok(p) else Err(Replay(s))
  {
    ListeningIsWindow(aead, d, arrivals);
    GenuineEnvelope(aead, d, Listening(aead, d, arrivals), s, p);
    AcceptsFirstArrival(Seen(arrivals), s);
    if s > 0 {
      OutrunByLargest(Seen(arrivals), s);
    }
  }

  lemma {:induction false} SeenContains(arrivals: seq<Bytes>, e: Bytes)
    requires e in arrivals && Numbered(e)
    ensures SequenceOf(e) in Seen(arrivals)
  {
    var last := |arrivals| - 1;
    if arrivals[last] != e {
      assert arrivals == arrivals[..last] + [arrivals[last]];
      SeenContains(arrivals[..last], e);
    }
  }

  /** A number counts as seen although its envelope did not open: the genuine envelope with that number, and all
      that are 64 or more behind it, are refused from then on. */
  lemma UnopenedNumberCounts(aead: Aead, d: Direction, arrivals: seq<Bytes>, e: Bytes, s: Uint64, p: Bytes)
    requires aead.Correct() && e in arrivals && Numbered(e)
    requires s == SequenceOf(e) || s + WINDOW_SIZE <= SequenceOf(e)
    ensures Received(aead, d, Listening(aead, d, arrivals), Envelope(aead, d, s, p)).1 == Err(Replay(s))
  {
    SeenContains(arrivals, e);
    DeliveryAmidAnything(aead, d, arrivals, s, p);
  }

  // ---------- A network that loses, repeats and reorders

  /** The network's choice: which envelope arrives, time after time. Any may be lost, repeated or overtaken. */
  predicate Arrivals(ps: seq<Bytes>, arrivals: seq<nat>) {
    forall k :: 0 <= k < |arrivals| ==> arrivals[k] < |ps|
  }

  /** The envelopes it delivers. */
  function Delivered(aead: Aead, d: Direction, ps: seq<Bytes>, arrivals: seq<nat>): (es: seq<Bytes>)
    requires Arrivals(ps, arrivals)
    ensures |es| == |arrivals|
  {
    seq(|arrivals|, k requires 0 <= k < |arrivals| => Sent(aead, d, ps, arrivals[k]))
  }

  function Numbers(arrivals: seq<nat>): (r: seq<nat>)
    ensures |r| == |arrivals|
    ensures forall k :: 0 <= k < |r| ==> r[k] == arrivals[k] + 1
  {
    seq(|arrivals|, k requires 0 <= k < |arrivals| => arrivals[k] + 1)
  }

  lemma {:induction false} SeenAreNumbers(aead: Aead, d: Direction, ps: seq<Bytes>, arrivals: seq<nat>)
    requires aead.Correct() && |ps| < UINT64_LIMIT && Arrivals(ps, arrivals)
    ensures Seen(Delivered(aead, d, ps, arrivals)) == Numbers(arrivals)
  {
    if arrivals != [] {
      var last := |arrivals| - 1;
      var es, e := Delivered(aead, d, ps, arrivals[..last]), Sent(aead, d, ps, arrivals[last]);
      SeenAreNumbers(aead, d, ps, arrivals[..last]);
      DeliveredSnoc(aead, d, ps, arrivals);
      SentIsNumbered(aead, d, ps, arrivals[last]);
      SeenSnoc(es, e, Numbers(arrivals[..last]), arrivals[last] + 1);
      NumbersSnoc(arrivals);
    }
  }

  lemma SentIsNumbered(aead: Aead, d: Direction, ps: seq<Bytes>, i: nat)
    requires aead.Correct() && i < |ps| < UINT64_LIMIT
    ensures Numbered(Sent(aead, d, ps, i)) && SequenceOf(Sent(aead, d, ps, i)) == i + 1
  {
    SequenceNumbers(i + 1);
    EnvelopeIsNumbered(aead, d, i + 1, ps[i]);
  }

  lemma NumbersSnoc(arrivals: seq<nat>)
    requires arrivals != []
    ensures Numbers(arrivals) == Numbers(arrivals[..|arrivals| - 1]) + [arrivals[|arrivals| - 1] + 1]
  {
  }

  lemma DeliveredSnoc(aead: Aead, d: Direction, ps: seq<Bytes>, arrivals: seq<nat>)
    requires Arrivals(ps, arrivals) && arrivals != []
    ensures var last := |arrivals| - 1;
            Delivered(aead, d, ps, arrivals) ==
            Delivered(aead, d, ps, arrivals[..last]) + [Sent(aead, d, ps, arrivals[last])]
  {
  }

  lemma SeenSnoc(es: seq<Bytes>, e: Bytes, ns: seq<nat>, n: nat)
    requires Seen(es) == ns && Numbered(e) && SequenceOf(e) == n
    ensures Seen(es + [e]) == ns + [n]
  {
    assert (es + [e])[..|es|] == es;
  }

  lemma NumbersContain(arrivals: seq<nat>, i: nat)
    ensures i + 1 in Numbers(arrivals) <==> i in arrivals
  {
    if i in arrivals {
      var k :| 0 <= k < |arrivals| && arrivals[k] == i;
      assert Numbers(arrivals)[k] == i + 1;
    }
  }

  lemma OutrunNumbers(arrivals: seq<nat>, i: nat)
    ensures Outrun(Numbers(arrivals), i + 1) <==> Outrun(arrivals, i)
  {
    if Outrun(arrivals, i) {
      var n :| n in arrivals && n >= i + WINDOW_SIZE;
      NumbersContain(arrivals, n);
    }
    if Outrun(Numbers(arrivals), i + 1) {
      var n :| n in Numbers(arrivals) && n >= i + 1 + WINDOW_SIZE;
      NumbersContain(arrivals, n - 1);
    }
  }

  /** Delivery over any run of such a network: an arriving envelope yields its own plaintext exactly if it has not
      arrived before and no envelope 64 or more numbers later has; otherwise it yields an error. */
  lemma Delivery(aead: Aead, d: Direction, ps: seq<Bytes>, arrivals: seq<nat>, i: nat)
    requires aead.Correct() && |ps| < UINT64_LIMIT && Arrivals(ps, arrivals) && i < |ps|
    ensures Received(aead, d, Listening(aead, d, Delivered(aead, d, ps, arrivals)), Sent(aead, d, ps, i)).1 ==
            if i !in arrivals && !Outrun(arrivals, i) then Ok(ps[i]) else Err(Replay(i + 1))
  {
    SequenceNumbers(i + 1);
    SeenAreNumbers(aead, d, ps, arrivals);
    DeliveryOf(aead, d, Delivered(aead, d, ps, arrivals), arrivals, i, ps[i]);
  }

  lemma FirstToArrive(arrivals: seq<nat>, i: nat)
    ensures i + 1 !in Numbers(arrivals) && !Outrun(Numbers(arrivals), i + 1) <==> i !in arrivals && !Outrun(arrivals, i)
  {
    NumbersContain(arrivals, i);
    OutrunNumbers(arrivals, i);
  }

  lemma DeliveryOf(aead: Aead, d: Direction, es: seq<Bytes>, arrivals: seq<nat>, i: nat, p: Bytes)
    requires aead.Correct() && i + 1 < UINT64_LIMIT && Seen(es) == Numbers(arrivals)
    ensures Received(aead, d, Listening(aead, d, es), Envelope(aead, d, i + 1, p)).1 ==
            if i !in arrivals && !Outrun(arrivals, i) then Ok(p) else Err(Replay(i + 1))
  {
    DeliveryAmidAnything(aead, d, es, i + 1, p);
    FirstToArrive(arrivals, i);
  }

  /** Every plaintext is delivered at most once. */
  lemma DeliveredOnce(aead: Aead, d: Direction, ps: seq<Bytes>, arrivals: seq<nat>, j: nat, k: nat)
    requires aead.Correct() && |ps| < UINT64_LIMIT && Arrivals(ps, arrivals)
    requires j < k < |arrivals| && arrivals[j] == arrivals[k]
    ensures Received(aead, d, Listening(aead, d, Delivered(aead, d, ps, arrivals)[..k]),
                     Sent(aead, d, ps, arrivals[k])).1.Err?
  {
    assert Delivered(aead, d, ps, arrivals)[..k] == Delivered(aead, d, ps, arrivals[..k]);
    Delivery(aead, d, ps, arrivals[..k], arrivals[k]);
    assert arrivals[..k][j] == arrivals[k];
  }

  /** No nonce is used twice by fewer than 2^64 calls of Encrypt. */
  lemma NonceNeverReused(d: Direction, i: nat, j: nat)
    requires i < j < UINT64_LIMIT
    ensures NonceFor(d.nonce, CounterAfter(i)) != NonceFor(d.nonce, CounterAfter(j))
  {
    SequenceNumbers(i);
    SequenceNumbers(j);
    NoncesDiffer(d.nonce, i, j);
  }

  // ---------- Both ends together

  lemma {:induction false} XorMoves(p: nat, q: nat, r: nat, u: nat)
    requires Xor(p, q) == Xor(r, u)
    ensures Xor(p, r) == Xor(q, u)
    decreases p + q + r + u
  {
    if p + q + r + u > 0 {
      XorHalves(p, q);
      XorHalves(r, u);
      XorMoves(p / 2, q / 2, r / 2, u / 2);
      XorHalves(p, r);
      XorHalves(q, u);
    }
  }

  lemma XorHalves(a: nat, b: nat)
    ensures Xor(a, b) / 2 == Xor(a / 2, b / 2)
    ensures Xor(a, b) % 2 == if a % 2 != b % 2 then 1 else 0
  {
  }

  function XorAll(a: Nonce, b: Nonce): Nonce {
    seq(NONCE_SIZE, i requires 0 <= i < NONCE_SIZE => XorBytes(a[i], b[i]))
  }

  /** Two nonce bases meet at two sequence numbers exactly if they differ as these do. */
  lemma BasesMeet(a: Nonce, b: Nonce, s: Uint64, t: Uint64)
    ensures NonceFor(a, s) == NonceFor(b, t) <==> XorAll(a, b) == XorAll(SequenceBytes(s), SequenceBytes(t))
  {
    var p, q := SequenceBytes(s), SequenceBytes(t);
    if NonceFor(a, s) == NonceFor(b, t) {
      forall i | 0 <= i < NONCE_SIZE
        ensures XorAll(a, b)[i] == XorAll(p, q)[i]
      {
        assert NonceFor(a, s)[i] == NonceFor(b, t)[i];
        XorMoves(a[i], p[i], b[i], q[i]);
      }
    }
    if XorAll(a, b) == XorAll(p, q) {
      forall i | 0 <= i < NONCE_SIZE
        ensures NonceFor(a, s)[i] == NonceFor(b, t)[i]
      {
        assert XorAll(a, b)[i] == XorAll(p, q)[i];
        XorMoves(a[i], b[i], p[i], q[i]);
      }
    }
  }

  /** What the i-th call of Encrypt (from 1) of a fresh session hands to the cipher. */
  function Used(d: Direction, i: nat): (Bytes, Nonce) {
    (d.key, NonceFor(d.nonce, CounterAfter(i)))
  }

  /** Over `n` calls that send in direction `a` and `m` that send in direction `b`, no key meets the same nonce twice. */
  ghost predicate NoPairTwice(a: Direction, b: Direction, n: nat, m: nat) {
    && (forall i, j :: 1 <= i < j <= n ==> Used(a, i) != Used(a, j))
    && (forall i, j :: 1 <= i < j <= m ==> Used(b, i) != Used(b, j))
    && (forall i, j :: 1 <= i <= n && 1 <= j <= m ==> Used(a, i) != Used(b, j))
  }

  /** Some number up to `n` and some up to `m` differ as the nonce bases do. */
  ghost predicate Meet(a: Nonce, b: Nonce, n: Uint64, m: Uint64) {
    exists s: Uint64, t: Uint64 ::
      1 <= s <= n && 1 <= t <= m && XorAll(a, b) == XorAll(SequenceBytes(s), SequenceBytes(t))
  }

  lemma OneDirection(d: Direction, n: nat)
    requires n < UINT64_LIMIT
    ensures forall i, j :: 1 <= i < j <= n ==> Used(d, i) != Used(d, j)
  {
    forall i: nat, j: nat | 1 <= i < j <= n
      ensures Used(d, i) != Used(d, j)
    {
      NonceNeverReused(d, i, j);
    }
  }

  /** Both ends of a channel together, over fewer than 2^64 calls each: no key meets a nonce twice if and only if the two
      directions have different keys, or nonce bases that do not meet within these calls. */
  lemma BothEndsNeverReuse(a: Direction, b: Direction, n: nat, m: nat)
    requires n < UINT64_LIMIT && m < UINT64_LIMIT
    ensures NoPairTwice(a, b, n, m) <==> a.key != b.key || !Meet(a.nonce, b.nonce, n, m)
  {
    OneDirection(a, n);
    OneDirection(b, m);
    if a.key == b.key {
      if Meet(a.nonce, b.nonce, n, m) {
        var s: Uint64, t: Uint64 :| 1 <= s <= n && 1 <= t <= m &&
                                    XorAll(a.nonce, b.nonce) == XorAll(SequenceBytes(s), SequenceBytes(t));
        BasesMeet(a.nonce, b.nonce, s, t);
        SequenceNumbers(s);
        SequenceNumbers(t);
        assert Used(a, s) == Used(b, t);
      } else {
        forall i: nat, j: nat | 1 <= i <= n && 1 <= j <= m
          ensures Used(a, i) != Used(b, j)
        {
          SequenceNumbers(i);
          SequenceNumbers(j);
          BasesMeet(a.nonce, b.nonce, i, j);
        }
      }
    }
  }

  lemma {:induction false} XorZero(a: nat)
    ensures Xor(a, 0) == a
  {
    if a > 0 {
      XorZero(a / 2);
    }
  }

  lemma XorIsZero(a: nat, b: nat)
    ensures Xor(a, b) == 0 <==> a == b
  {
    if Xor(a, b) == 0 {
      XorMoves(a, b, 0, 0);
      XorZero(a);
      XorZero(b);
    }
    if a == b {
      XorZero(a);
      XorMoves(a, 0, b, 0);
    }
  }

  lemma {:induction false} BigEndianOf(bs: Bytes)
    ensures BigEndian(FromBigEndian(bs), |bs|) == bs
  {
    if bs != [] {
      BigEndianOf(bs[..|bs| - 1]);
    }
  }

  /** The number that differs from `s` as the bases differ. */
  lemma Counterpart(a: Nonce, b: Nonce, s: Uint64) returns (t: Uint64)
    requires a[..4] == b[..4]
    ensures XorAll(a, b) == XorAll(SequenceBytes(s), SequenceBytes(t))
  {
    var x, p := XorAll(a, b), SequenceBytes(s);
    var wanted := XorAll(p, x);
    var low := wanted[4..];
    FromBigEndianBound(low);
    Pow256Is64Bit();
    BigEndianOf(low);
    t := FromBigEndian(low);
    forall i | 0 <= i < NONCE_SIZE
      ensures XorAll(p, SequenceBytes(t))[i] == x[i]
    {
      if i < 4 {
        assert a[i] == a[..4][i] && b[i] == b[..4][i];
        XorIsZero(a[i], b[i]);
      } else {
        assert SequenceBytes(t)[i] == wanted[i];
        XorCancels(p[i], x[i]);
      }
    }
  }

  lemma SameDifference(s: Uint64, u: Uint64, t: Uint64)
    requires XorAll(SequenceBytes(s), SequenceBytes(t)) == XorAll(SequenceBytes(u), SequenceBytes(t))
    ensures s == u
  {
    var p, q, r := SequenceBytes(s), SequenceBytes(u), SequenceBytes(t);
    forall i | 0 <= i < NONCE_SIZE
      ensures NonceFor(r, s)[i] == NonceFor(r, u)[i]
    {
      assert XorAll(p, r)[i] == XorAll(q, r)[i];
      XorMoves(p[i], r[i], q[i], r[i]);
      XorIsZero(p[i], q[i]);
      XorIsZero(r[i], r[i]);
    }
    if s != u {
      NoncesDiffer(r, s, u);
    }
  }

  /** Over the whole life of a session, bases meet exactly if their first four bytes are the same. */
  lemma MeetExactly(a: Nonce, b: Nonce)
    ensures Meet(a, b, UINT64_LIMIT - 1, UINT64_LIMIT - 1) <==> a[..4] == b[..4]
  {
    if Meet(a, b, UINT64_LIMIT - 1, UINT64_LIMIT - 1) {
      var s: Uint64, t: Uint64 :| 1 <= s && 1 <= t && XorAll(a, b) == XorAll(SequenceBytes(s), SequenceBytes(t));
      forall i | 0 <= i < 4
        ensures a[i] == b[i]
      {
        assert XorAll(a, b)[i] == XorAll(SequenceBytes(s), SequenceBytes(t))[i];
        XorIsZero(a[i], b[i]);
      }
    }
    if a[..4] == b[..4] {
      var t := Counterpart(a, b, 1);
      var u := Counterpart(a, b, 2);
      if t == 0 && u == 0 {
        SameDifference(1, 2, 0);
      }
    }
  }

  /** So, with one key for both directions, the nonces of a channel may come to repeat exactly if its bases agree in their
      first four bytes; with two keys never. */
  lemma WholeLife(a: Direction, b: Direction)
    ensures NoPairTwice(a, b, UINT64_LIMIT - 1, UINT64_LIMIT - 1) <==> a.key != b.key || a.nonce[..4] != b.nonce[..4]
  {
    BothEndsNeverReuse(a, b, UINT64_LIMIT - 1, UINT64_LIMIT - 1);
    MeetExactly(a.nonce, b.nonce);
  }

  /** The first message from one end to the other. */
  method FirstMessage(sender: Session, receiver: Session, plaintext: Bytes) returns (r: Result)
    requires sender.aead == receiver.aead && sender.aead.Correct() && sender.sending == receiver.receiving
    requires sender.sendSeq == 0 && receiver.recvWindow.Valid() && receiver.recvWindow.window == EMPTY
    modifies sender, receiver.recvWindow
    ensures r == Ok(plaintext)
  {
    var envelope := sender.Encrypt(plaintext);
    FirstEnvelope(receiver.aead, receiver.receiving, envelope, plaintext);
    r := receiver.Decrypt(envelope);
  }

  lemma FirstEnvelope(aead: Aead, d: Direction, e: Bytes, p: Bytes)
    requires aead.Correct() && e == Envelope(aead, d, 1, p)
    ensures EMPTY.Valid() && Received(aead, d, EMPTY, e).1 == Ok(p)
  {
    GenuineEnvelope(aead, d, EMPTY, 1, p);
  }

  /** Two sessions derived from the same inputs by opposite ends understand each other, in both directions. */
  method Pair(hkdf: Hkdf, aead: Aead, secret: Bytes, agentEphPub: Bytes, masterEphPub: Bytes, toAgent: Bytes, toMaster: Bytes)
    returns (atAgent: Result, atMaster: Result)
    requires aead.Correct() && |hkdf(secret, agentEphPub + masterEphPub, INFO)| >= KEY_MATERIAL
    ensures atAgent == Ok(toAgent) && atMaster == Ok(toMaster)
  {
    var master := DeriveSession(hkdf, aead, secret, agentEphPub, masterEphPub, true);
    var agent := DeriveSession(hkdf, aead, secret, agentEphPub, masterEphPub, false);
    FilledOnce(hkdf(secret, agentEphPub + masterEphPub, INFO), master.sending, master.receiving, agent.receiving, agent.sending);
    atAgent := FirstMessage(master, agent, toAgent);
    atMaster := FirstMessage(agent, master, toMaster);
  }
}
