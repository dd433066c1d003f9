/** XtlsFilterTls: watching the first packets of a connection for a TLS handshake. */
module TlsFilter {
  import opened ByteStrings

  const TLS13_SUPPORTED_VERSIONS: Bytes := [0x00, 0x2b, 0x00, 0x02, 0x03, 0x04]
  const TLS_CLIENT_HANDSHAKE_START: Bytes := [0x16, 0x03]
  const TLS_SERVER_HANDSHAKE_START: Bytes := [0x16, 0x03, 0x03]
  const HANDSHAKE_CLIENT_HELLO := 0x01
  const HANDSHAKE_SERVER_HELLO := 0x02

  /** The part of TrafficState that both directions of a connection share. */
  datatype Filter = Filter(
    packets: int,        // NumberOfPacketToFilter
    xtls: bool,          // EnableXtls
    tls12: bool,         // IsTLS12orAbove
    tls: bool,           // IsTLS
    cipher: int,
    serverHello: int     // RemainingServerHello
  )

  const FRESH_FILTER := Filter(8, false, false, false, 0, -1)

  predicate KnownTls13Cipher(c: int) {
    0x1301 <= c <= 0x1305
  }

  /** TLS_AES_128_CCM_8_SHA256 is the one suite that does not enable XTLS. */
  predicate EnablesXtls(c: int) {
    KnownTls13Cipher(c) && c != 0x1305
  }

  /** The two bytes after the session id. They may lie past the end of the buffer's content,
      where the pool's earlier contents (`stale`) are read. */
  function CipherAt(b: Bytes, stale: int): int
    requires |b| >= 79
  {
    var sessionIdLen: int := b[43];
    var from := 43 + sessionIdLen + 1;
    if from + 2 <= |b| then Word(b[from], b[from + 1]) else stale
  }

  predicate IsServerHello(b: Bytes) {
    |b| >= 6 && b[..3] == TLS_SERVER_HANDSHAKE_START && b[5] == HANDSHAKE_SERVER_HELLO
  }

  predicate IsClientHello(b: Bytes) {
    |b| >= 6 && b[..2] == TLS_CLIENT_HANDSHAKE_START && b[5] == HANDSHAKE_CLIENT_HELLO
  }

  /** Recognising a hello at the start of one buffer. */
  function SeeHello(f: Filter, b: Bytes, stale: int): Filter {
    if IsServerHello(b) then
      var hello := Word(b[3], b[4]) + 5;
      f.(serverHello := hello, tls12 := true, tls := true,
         cipher := if |b| >= 79 && hello >= 79 then CipherAt(b, stale) else f.cipher)
    else if IsClientHello(b) then
      f.(tls := true)
    else
      f
  }

  /** One buffer through the filter, and whether filtering is over for good. */
  function FilterOne(f: Filter, b: Bytes, stale: int): (Filter, bool) {
    var g := SeeHello(f.(packets := f.packets - 1), b, stale);
    if g.serverHello > 0 then
      var end := if g.serverHello > |b| then |b| else g.serverHello;
      var h := g.(serverHello := g.serverHello - |b|);
      if Contains(b[..end], TLS13_SUPPORTED_VERSIONS) then
        (h.(xtls := h.xtls || EnablesXtls(h.cipher), packets := 0), true)
      else if h.serverHello <= 0 then
        (h.(packets := 0), true)
      else
        (h, false)
    else
      (g, false)
  }

  /** A whole multi-buffer, and whether filtering ended before its last entry was reached;
      nil entries are skipped. */
  function FilterAll(f: Filter, mb: seq<Slot>, stale: seq<int>): (Filter, bool)
    requires |stale| == |mb|
    decreases |mb|
  {
    if mb == [] then (f, false)
    else
      var last := |mb| - 1;
      var (g, over) := FilterAll(f, mb[..last], stale[..last]);
      if over || mb[last].Nil? then (g, over) else FilterOne(g, mb[last].data, stale[last])
  }

  lemma {:induction false} FilterStaysOver(f: Filter, mb: seq<Slot>, stale: seq<int>, i: nat)
    requires |stale| == |mb| && i <= |mb|
    requires FilterAll(f, mb[..i], stale[..i]).1
    ensures FilterAll(f, mb, stale) == FilterAll(f, mb[..i], stale[..i])
    decreases |mb|
  {
    if i == |mb| {
      assert mb[..i] == mb && stale[..i] == stale;
    } else {
      var last := |mb| - 1;
      assert mb[..last][..i] == mb[..i] && stale[..last][..i] == stale[..i];
      FilterStaysOver(f, mb[..last], stale[..last], i);
    }
  }

  /** What every run of the filter keeps: XTLS is only enabled on a connection seen to speak TLS 1.2 or later,
      and a server hello is only pending on such a connection. */
  predicate Consistent(f: Filter) {
    (f.xtls ==> f.tls12) && (f.serverHello > 0 ==> f.tls12) && (f.tls12 ==> f.tls)
  }

  /** The flags are never taken back and the packet budget never grows. */
  predicate Advances(f: Filter, g: Filter) {
    (f.xtls ==> g.xtls) && (f.tls12 ==> g.tls12) && (f.tls ==> g.tls) &&
    g.packets <= f.packets
  }

  lemma {:induction false} FilterIsSafe(f: Filter, mb: seq<Slot>, stale: seq<int>)
    requires Consistent(f) && |stale| == |mb|
    requires f.packets > 0
    ensures Consistent(FilterAll(f, mb, stale).0) && Advances(f, FilterAll(f, mb, stale).0)
    decreases |mb|
  {
    if mb != [] {
      FilterIsSafe(f, mb[..|mb| - 1], stale[..|mb| - 1]);
    }
  }

  method ReadCipher(b: Bytes) returns (cipher: int, ghost stale: int)
    requires |b| >= 79
    ensures cipher == CipherAt(b, stale)
  {
    stale := 0;
    var sessionIdLen: int := b[43];
    var from := 43 + sessionIdLen + 1;
    if from + 2 <= |b| {
      cipher := Word(b[from], b[from + 1]);
    } else {
      var past: int := *;  // whatever the pooled array held before
      cipher, stale := past, past;
    }
  }

  method FindHello(f: Filter, b: Bytes) returns (g: Filter, ghost stale: int)
    ensures g == SeeHello(f, b, stale)
  {
    stale := 0;
    g := f;
    if IsServerHello(b) {
      g := g.(serverHello := Word(b[3], b[4]) + 5, tls12 := true, tls := true);
      if |b| >= 79 && g.serverHello >= 79 {
        var cipher;
        cipher, stale := ReadCipher(b);
        g := g.(cipher := cipher);
      }
    } else if IsClientHello(b) {
      g := g.(tls := true);
    }
  }

  method FilterBuffer(f: Filter, b: Bytes) returns (g: Filter, over: bool, ghost stale: int)
    ensures (g, over) == FilterOne(f, b, stale)
  {
    g := f.(packets := f.packets - 1);
    over := false;
    g, stale := FindHello(g, b);
    if g.serverHello > 0 {
      var end := g.serverHello;
      if end > |b| {
        end := |b|;
      }
      g := g.(serverHello := g.serverHello - |b|);
      if Contains(b[..end], TLS13_SUPPORTED_VERSIONS) {
        if EnablesXtls(g.cipher) {
          g := g.(xtls := true);
        }
        g := g.(packets := 0);
        over := true;
      } else if g.serverHello <= 0 {
        g := g.(packets := 0);
        over := true;
      }
    }
  }

  method XtlsFilterTls(f: Filter, buffer: seq<Slot>) returns (g: Filter, ghost stale: seq<int>)
    ensures |stale| == |buffer| && g == FilterAll(f, buffer, stale).0
  {
    g := f;
    stale := [];
    for i := 0 to |buffer|
      invariant |stale| == i
      invariant FilterAll(f, buffer[..i], stale) == (g, false)
    {
      var b := buffer[i];
      assert buffer[..i + 1][..i] == buffer[..i];
      if b.Nil? {
        stale := stale + [0];
        assert stale[..i] == stale[..|stale| - 1];
        continue;
      }
      var over;
      ghost var past;
      g, over, past := FilterBuffer(g, b.data);
      stale := stale + [past];
      assert stale[..i] == stale[..|stale| - 1];
      if over {
        ghost var rest := seq(|buffer| - i - 1, _ => 0);
        FilterStaysOver(f, buffer, stale + rest, i + 1);
        assert (stale + rest)[..i + 1] == stale;
        stale := stale + rest;
        return;
      }
    }
    assert buffer[..|buffer|] == buffer;
  }
}
