/** Byte strings, the pooled buffers that carry them, and lists of buffers. */
module ByteStrings {
  /** Capacity of a pooled buffer (buf.Size). */
  const BUFFER_SIZE := 8192

  type Byte = b: int | 0 <= b < 256
  type Bytes = seq<Byte>

  /** What one pooled buffer can hold. */
  type Buffer = b: Bytes | |b| <= BUFFER_SIZE witness []

  /** The bytes of a list of byte strings, in order. */
  function Flatten(bs: seq<Bytes>): (r: Bytes) {
    if bs == [] then [] else bs[0] + Flatten(bs[1..])
  }

  lemma {:induction false} FlattenAppend(a: seq<Bytes>, b: seq<Bytes>)
    ensures Flatten(a + b) == Flatten(a) + Flatten(b)
  {
    if a == [] {
      assert a + b == b;
    } else {
      assert (a + b)[1..] == a[1..] + b;
      FlattenAppend(a[1..], b);
    }
  }

  lemma Assoc(a: Bytes, b: Bytes, c: Bytes)
    ensures a + (b + c) == (a + b) + c
  {
  }

  lemma FlattenSnoc(a: seq<Bytes>, x: Bytes)
    ensures Flatten(a + [x]) == Flatten(a) + x
  {
    FlattenAppend(a, [x]);
    assert Flatten([x]) == x;
  }

  /** The high and the low byte of a 16-bit length. */
  function High(n: int): Byte
    requires 0 <= n < 0x1_0000
  {
    n / 256
  }

  function Low(n: int): Byte
    requires 0 <= n < 0x1_0000
  {
    n % 256
  }

  /** The 16-bit length held in two bytes, high byte first. */
  function Word(high: Byte, low: Byte): (n: int)
    ensures 0 <= n < 0x1_0000
    ensures High(n) == high && Low(n) == low
  {
    var h: int := high;
    h * 256 + low
  }

  predicate OccursAt(hay: Bytes, needle: Bytes, i: int) {
    0 <= i <= |hay| - |needle| && hay[i..i + |needle|] == needle
  }

  /** Does `needle` occur in `hay` (bytes.Contains)? */
  predicate Contains(hay: Bytes, needle: Bytes) {
    exists i :: 0 <= i <= |hay| && OccursAt(hay, needle, i)
  }

  /** One entry of a buf.MultiBuffer: a nil pointer or a buffer. */
  datatype Slot = Nil | Buf(data: Buffer) {
    function Data(): (r: Buffer) {
      if Nil? then [] else data
    }
  }

  /** The bytes of a multi-buffer, end to end. */
  function Payload(mb: seq<Slot>): (r: Bytes) {
    if mb == [] then [] else mb[0].Data() + Payload(mb[1..])
  }

  lemma {:induction false} PayloadAppend(a: seq<Slot>, b: seq<Slot>)
    ensures Payload(a + b) == Payload(a) + Payload(b)
  {
    if a == [] {
      assert a + b == b;
    } else {
      assert (a + b)[1..] == a[1..] + b;
      PayloadAppend(a[1..], b);
    }
  }

  lemma PayloadSnoc(a: seq<Slot>, x: Slot)
    ensures Payload(a + [x]) == Payload(a) + x.Data()
  {
    PayloadAppend(a, [x]);
    assert Payload([x]) == x.Data();
  }
}
