/** Recognising whole TLS application-data records, as the Vision writer does before it ends padding. */
module TlsRecords {
  import opened ByteStrings

  /** Zero or more records 17 03 03 len16 payload, each with a payload of at least one byte
      (the record form of section 5.2 of RFC 8446). */
  predicate WholeRecords(b: Bytes)
    decreases |b|
  {
    b == [] ||
    (&& |b| >= 5 && b[0] == 0x17 && b[1] == 0x03 && b[2] == 0x03
     && var len := Word(b[3], b[4]);
     0 < len <= |b| - 5 && WholeRecords(b[5 + len..]))
  }

  /** One record: header and payload. */
  function Record(payload: Bytes): (r: Bytes)
    requires 0 < |payload| < 0x1_0000
  {
    [0x17, 0x03, 0x03, High(|payload|), Low(|payload|)] + payload
  }

  predicate Payloads(ps: seq<Bytes>) {
    forall i :: 0 <= i < |ps| ==> 0 < |ps[i]| < 0x1_0000
  }

  function Records(ps: seq<Bytes>): Bytes
    requires Payloads(ps)
  {
    if ps == [] then [] else Record(ps[0]) + Records(ps[1..])
  }

  /** `WholeRecords` is the range of the record printer: what it accepts, it can cut into payloads. */
  lemma {:induction false} WholeRecordsParse(b: Bytes) returns (ps: seq<Bytes>)
    requires WholeRecords(b)
    ensures Payloads(ps) && Records(ps) == b
    decreases |b|
  {
    if b == [] {
      ps := [];
    } else {
      var p, rest := FirstRecord(b);
      var others := WholeRecordsParse(rest);
      ps := [p] + others;
      assert ps[1..] == others;
    }
  }

  lemma FirstRecord(b: Bytes) returns (p: Bytes, rest: Bytes)
    requires WholeRecords(b) && b != []
    ensures 0 < |p| < 0x1_0000 && b == Record(p) + rest && WholeRecords(rest)
  {
    var len := Word(b[3], b[4]);
    p, rest := b[5..5 + len], b[5 + len..];
    CutRecord(b, len);
  }

  lemma CutRecord(b: Bytes, len: int)
    requires 0 < len <= |b| - 5 && b[0] == 0x17 && b[1] == 0x03 && b[2] == 0x03 && len == Word(b[3], b[4])
    ensures b == Record(b[5..5 + len]) + b[5 + len..]
  {
    assert Record(b[5..5 + len]) == b[..5 + len];
  }

  lemma {:induction false} RecordsAreWhole(ps: seq<Bytes>)
    requires Payloads(ps)
    ensures WholeRecords(Records(ps))
  {
    if ps != [] {
      RecordsAreWhole(ps[1..]);
      var b := Records(ps);
      assert b[5 + |ps[0]|..] == Records(ps[1..]);
    }
  }

  /** The header of the record that b begins with, but for its last `headerLen` bytes, has been read. */
  predicate HeaderSoFar(b: Bytes, headerLen: int, recordLen: int) {
    && 0 <= headerLen <= 5 <= |b| + headerLen
    && (headerLen < 5 ==> b[0] == 0x17) && (headerLen < 4 ==> b[1] == 0x03) && (headerLen < 3 ==> b[2] == 0x03)
    && recordLen == if headerLen >= 2 then 0 else if headerLen == 1 then Word(b[3], 0) else Word(b[3], b[4])
  }

  /** The five header bytes. */
  method HeaderByte(ghost b: Bytes, data: Byte, headerLen: int, before: int) returns (ok: bool, recordLen: int)
    requires HeaderSoFar(b, headerLen, before) && headerLen > 0 && |b| > 5 - headerLen && data == b[5 - headerLen]
    ensures ok ==> HeaderSoFar(b, headerLen - 1, recordLen)
    ensures !ok ==> !WholeRecords(b)
  {
    ok, recordLen := true, before;
    match headerLen {
      case 5 => ok := data == 0x17;
      case 4 => ok := data == 0x03;
      case 3 => ok := data == 0x03;
      case 2 => recordLen := Word(data, 0);
      case _ => recordLen := recordLen + data;
    }
  }

  /** With the whole header read: the records go on behind this one. */
  lemma OneRecord(b: Bytes, recordLen: int)
    requires HeaderSoFar(b, 0, recordLen)
    ensures WholeRecords(b) <==> 0 < recordLen <= |b| - 5 && WholeRecords(b[5 + recordLen..])
  {
  }

  /** The bytes end within a header or right behind one. */
  lemma EndsInside(b: Bytes, headerLen: int, recordLen: int)
    requires HeaderSoFar(b, headerLen, recordLen) && headerLen < 5 && |b| == 5 - headerLen
    ensures !WholeRecords(b)
  {
  }

  /** IsCompleteRecord is run on the bytes of the buffers put end to end, so a record may straddle them. */
  method IsCompleteRecord(buffers: seq<Bytes>) returns (complete: bool)
    ensures complete == WholeRecords(Flatten(buffers))
  {
    var b := Flatten(buffers);
    var headerLen: int := 5;
    var recordLen: int := 0;
    var totalLen := |b|;
    var i := 0;
    ghost var rest := b;  // what begins with the record being read
    while i < totalLen
      invariant |rest| <= totalLen && i + |rest| == totalLen + (5 - headerLen) && i <= totalLen
      invariant rest == b[totalLen - |rest|..] && WholeRecords(b) == WholeRecords(rest)
      invariant HeaderSoFar(rest, headerLen, recordLen)
      decreases totalLen - i
    {
      if headerLen > 0 {
        var ok;
        ok, recordLen := HeaderByte(rest, b[i], headerLen, recordLen);
        if !ok {
          return false;
        }
        i := i + 1;
        headerLen := headerLen - 1;
      } else if recordLen > 0 {
        var remaining := totalLen - i;
        OneRecord(rest, recordLen);
        if remaining < recordLen {
          return false;
        }
        i := i + recordLen;
        rest := rest[5 + recordLen..];
        recordLen := 0;
        headerLen := 5;
      } else {
        OneRecord(rest, recordLen);
        return false;
      }
    }
    if headerLen == 5 && recordLen == 0 {
      return true;
    }
    EndsInside(rest, headerLen, recordLen);
    return false;
  }
}
