/** What the TLS filter knows after any run, said on the bytes that went by: what is left of its packet budget, when it
    stops looking, and which flags it has set. */
module FilterRuns {
  import opened ByteStrings
  import opened TlsFilter

  // ---------- The bytes it looks for

  predicate OpensServerHello(b: Bytes) {
    |b| >= 6 && b[0] == 0x16 && b[1] == 0x03 && b[2] == 0x03 && b[5] == 0x02
  }

  predicate OpensClientHello(b: Bytes) {
    |b| >= 6 && b[0] == 0x16 && b[1] == 0x03 && b[5] == 0x01
  }

  /** Length of the record that starts with `b`, its header included. */
  function RecordLength(b: Bytes): int
    requires |b| >= 5
  {
    var high: int, low: int := b[3], b[4];
    5 + 256 * high + low
  }

  /** The supported_versions extension of a server that chose TLS 1.3 (section 4.2.1 of RFC 8446). */
  predicate NamesTls13At(b: Bytes, i: int) {
    0 <= i <= |b| - 6 && b[i..i + 6] == [0x00, 0x2b, 0x00, 0x02, 0x03, 0x04]
  }

  predicate NamesTls13(b: Bytes) {
    exists i :: 0 <= i <= |b| && NamesTls13At(b, i)
  }

  /** A server hello whose cipher suite is read. */
  predicate ShowsCipher(b: Bytes) {
    OpensServerHello(b) && |b| >= 79 && RecordLength(b) >= 79
  }

  /** The suite that follows the session id; past the end of the buffer it is whatever stood there. */
  function ShownCipher(b: Bytes, stale: int): int
    requires |b| >= 79
  {
    var session: int := b[43];
    if 46 + session <= |b| then
      var high: int, low: int := b[44 + session], b[45 + session];
      256 * high + low
    else stale
  }

  // ---------- Where a run stands

  function CountBuffers(mb: seq<Slot>): nat {
    if mb == [] then 0 else CountBuffers(mb[..|mb| - 1]) + if mb[|mb| - 1].Buf? then 1 else 0
  }

  function LatestHello(mb: seq<Slot>): (m: int)
    ensures -1 <= m < |mb| && (m >= 0 ==> OpensServerHello(mb[m].Data()))
    ensures forall k :: m < k < |mb| ==> !OpensServerHello(mb[k].Data())
  {
    if mb == [] then -1
    else if OpensServerHello(mb[|mb| - 1].Data()) then |mb| - 1
    else LatestHello(mb[..|mb| - 1])
  }

  /** How much of the latest server hello is missing behind `mb`, if `left` bytes of one were missing before it. */
  function Missing(left: int, mb: seq<Slot>): int {
    var m := LatestHello(mb);
    if m >= 0 then RecordLength(mb[m].Data()) - |Payload(mb[m..])| else left - |Payload(mb)|
  }

  /** How many bytes of a server hello are due when `b` comes, if `left` were missing before it. */
  function Due(left: int, b: Bytes): int {
    if OpensServerHello(b) then RecordLength(b) else left
  }

  function PartDue(left: int, b: Bytes): Bytes {
    var due := Due(left, b);
    if due <= 0 then [] else if due < |b| then b[..due] else b
  }

  /** `b` brings the last byte of a server hello, or names TLS 1.3 in its part of one. */
  predicate Settles(left: int, b: Bytes) {
    0 < Due(left, b) && (Due(left, b) <= |b| || NamesTls13(PartDue(left, b)))
  }

  /** For each entry, whether it settles the hello that is under way when it comes. */
  function Verdicts(left: int, mb: seq<Slot>): (r: seq<bool>)
    ensures |r| == |mb|
  {
    if mb == [] then []
    else
      var front := mb[..|mb| - 1];
      Verdicts(left, front) + [Settles(Missing(left, front), mb[|mb| - 1].Data())]
  }

  lemma {:induction false} VerdictAt(left: int, mb: seq<Slot>, j: nat)
    requires j < |mb|
    ensures Verdicts(left, mb)[j] <==> Settles(Missing(left, mb[..j]), mb[j].Data())
    decreases |mb|
  {
    var front := mb[..|mb| - 1];
    if j < |front| {
      VerdictAt(left, front, j);
      assert front[..j] == mb[..j];
    }
  }

  predicate Decided(left: int, mb: seq<Slot>) {
    true in Verdicts(left, mb)
  }

  /** The number of verdicts up to the first true one. */
  function UpToTrue(verdicts: seq<bool>): (n: nat)
    ensures n <= |verdicts|
    ensures forall j :: 0 <= j < n - 1 ==> !verdicts[j]
    ensures true in verdicts ==> n > 0 && verdicts[n - 1]
    ensures true !in verdicts ==> n == |verdicts|
  {
    if verdicts == [] then 0
    else if verdicts[0] then 1
    else 1 + UpToTrue(verdicts[1..])
  }

  /** How many entries are looked at: up to the first one that settles a hello. */
  function Watched(left: int, mb: seq<Slot>): (n: nat)
    ensures n <= |mb|
  {
    UpToTrue(Verdicts(left, mb))
  }

  lemma MissingSnoc(left: int, mb: seq<Slot>, x: Slot)
    ensures Missing(left, mb + [x]) == Due(Missing(left, mb), x.Data()) - |x.Data()|
  {
    var all := mb + [x];
    assert all[..|mb|] == mb;
    var m := LatestHello(mb);
    if OpensServerHello(x.Data()) {
      assert all[|mb|..] == [] + [x];
      PayloadSnoc([], x);
    } else if m >= 0 {
      assert all[m..] == mb[m..] + [x];
      PayloadSnoc(mb[m..], x);
    } else {
      PayloadSnoc(mb, x);
    }
  }

  lemma VerdictsSnoc(left: int, mb: seq<Slot>, x: Slot)
    ensures Verdicts(left, mb + [x]) == Verdicts(left, mb) + [Settles(Missing(left, mb), x.Data())]
  {
    assert (mb + [x])[..|mb|] == mb;
  }

  lemma UpToTrueSnoc(verdicts: seq<bool>, v: bool)
    ensures UpToTrue(verdicts + [v]) == if true in verdicts then UpToTrue(verdicts) else |verdicts| + 1
  {
    var all := verdicts + [v];
    var n, m := UpToTrue(all), UpToTrue(verdicts);
    if true in verdicts {
      assert all[m - 1];
    }
  }

  // ---------- One buffer

  lemma SameHellos(b: Bytes)
    ensures IsServerHello(b) <==> OpensServerHello(b)
    ensures IsClientHello(b) <==> OpensClientHello(b)
    ensures OpensServerHello(b) ==> RecordLength(b) == Word(b[3], b[4]) + 5
  {
    if |b| >= 6 {
      assert b[..3] == [b[0], b[1], b[2]] && b[..2] == [b[0], b[1]];
    }
  }

  lemma SameName(b: Bytes)
    ensures Contains(b, TLS13_SUPPORTED_VERSIONS) <==> NamesTls13(b)
  {
    if Contains(b, TLS13_SUPPORTED_VERSIONS) {
      var i :| 0 <= i <= |b| && OccursAt(b, TLS13_SUPPORTED_VERSIONS, i);
      assert NamesTls13At(b, i);
    }
    if NamesTls13(b) {
      var i :| 0 <= i <= |b| && NamesTls13At(b, i);
      assert OccursAt(b, TLS13_SUPPORTED_VERSIONS, i);
    }
  }

  lemma OneHello(f: Filter, b: Bytes, stale: int)
    ensures var g := SeeHello(f, b, stale);
            && g.packets == f.packets && g.serverHello == Due(f.serverHello, b) && g.xtls == f.xtls
            && (g.tls12 <==> f.tls12 || OpensServerHello(b))
            && (g.tls <==> f.tls || OpensServerHello(b) || OpensClientHello(b))
            && g.cipher == if ShowsCipher(b) then ShownCipher(b, stale) else f.cipher
  {
    SameHellos(b);
  }

  lemma OneBuffer(f: Filter, b: Bytes, stale: int)
    ensures var (g, over) := FilterOne(f, b, stale);
            && (over <==> Settles(f.serverHello, b))
            && g.packets == (if over then 0 else f.packets - 1)
            && g.serverHello == Due(f.serverHello, b) - (if Due(f.serverHello, b) > 0 then |b| else 0)
  {
    OneHello(f.(packets := f.packets - 1), b, stale);
    SameName(PartDue(f.serverHello, b));
    assert b[..|b|] == b;
  }

  lemma OneBufferFlags(f: Filter, b: Bytes, stale: int)
    ensures var (g, over) := FilterOne(f, b, stale);
            && (g.tls12 <==> f.tls12 || OpensServerHello(b))
            && (g.tls <==> f.tls || OpensServerHello(b) || OpensClientHello(b))
            && g.cipher == (if ShowsCipher(b) then ShownCipher(b, stale) else f.cipher)
            && (g.xtls <==> f.xtls || (0x1301 <= g.cipher <= 0x1304 && NamesTls13(PartDue(f.serverHello, b))))
  {
    OneHello(f.(packets := f.packets - 1), b, stale);
    SameName(PartDue(f.serverHello, b));
    assert b[..|b|] == b;
  }

  // ---------- A multi-buffer

  /** Two counts of missing bytes that agree as far as any are missing. */
  predicate SameMissing(a: int, b: int) {
    a > 0 || b > 0 ==> a == b
  }

  /** The budget after `mb`: used up exactly if some buffer decided; otherwise every buffer has cost one packet and nil
      entries have cost nothing. */
  predicate Budgeted(f: Filter, mb: seq<Slot>, g: Filter, over: bool) {
    && (over <==> Decided(f.serverHello, mb))
    && g.packets == (if over then 0 else f.packets - CountBuffers(mb))
    && (!over ==> SameMissing(g.serverHello, Missing(f.serverHello, mb)))
  }

  lemma {:induction false} BudgetOfBuffers(f: Filter, mb: seq<Slot>, stale: seq<int>)
    requires |stale| == |mb|
    ensures Budgeted(f, mb, FilterAll(f, mb, stale).0, FilterAll(f, mb, stale).1)
    decreases |mb|
  {
    if mb == [] {
      BudgetStart(f);
    } else {
      var last := |mb| - 1;
      var (g, over) := FilterAll(f, mb[..last], stale[..last]);
      BudgetOfBuffers(f, mb[..last], stale[..last]);
      BudgetStep(f, mb[..last], g, over, mb[last], stale[last]);
      FilterUnfolds(f, mb, stale);
      assert mb == mb[..last] + [mb[last]];
    }
  }

  lemma BudgetStart(f: Filter)
    ensures Budgeted(f, [], f, false)
  {
  }

  /** What the loop does with one more entry. */
  function Step(g: Filter, over: bool, x: Slot, past: int): (Filter, bool) {
    if over || x.Nil? then (g, over) else FilterOne(g, x.data, past)
  }

  lemma FilterUnfolds(f: Filter, mb: seq<Slot>, stale: seq<int>)
    requires |stale| == |mb| > 0
    ensures var last := |mb| - 1;
            var (g, over) := FilterAll(f, mb[..last], stale[..last]);
            FilterAll(f, mb, stale) == Step(g, over, mb[last], stale[last])
  {
  }

  lemma BudgetStep(f: Filter, mb: seq<Slot>, g: Filter, over: bool, x: Slot, past: int)
    requires Budgeted(f, mb, g, over)
    ensures Budgeted(f, mb + [x], Step(g, over, x, past).0, Step(g, over, x, past).1)
  {
    VerdictsSnoc(f.serverHello, mb, x);
    MissingSnoc(f.serverHello, mb, x);
    assert (mb + [x])[..|mb|] == mb;
    if x.Buf? {
      OneBuffer(g, x.data, past);
    }
  }

  // ---------- The flags

  predicate SeesServerHello(mb: seq<Slot>) {
    exists j :: 0 <= j < |mb| && OpensServerHello(mb[j].Data())
  }

  predicate SeesClientHello(mb: seq<Slot>) {
    exists j :: 0 <= j < |mb| && OpensClientHello(mb[j].Data())
  }

  /** The latest entry whose cipher suite is read, or -1. */
  function LatestCipher(mb: seq<Slot>): (m: int)
    ensures -1 <= m < |mb| && (m >= 0 ==> ShowsCipher(mb[m].Data()))
    ensures forall k :: m < k < |mb| ==> !ShowsCipher(mb[k].Data())
  {
    if mb == [] then -1
    else if ShowsCipher(mb[|mb| - 1].Data()) then |mb| - 1
    else LatestCipher(mb[..|mb| - 1])
  }

  function CipherAfter(before: int, mb: seq<Slot>, stale: seq<int>): int
    requires |stale| == |mb|
  {
    var m := LatestCipher(mb);
    if m >= 0 then ShownCipher(mb[m].Data(), stale[m]) else before
  }

  /** What looking at `mb` sets: TLS 1.2 exactly at a server hello, TLS exactly at a server or client hello. */
  predicate Flagged(f: Filter, mb: seq<Slot>, stale: seq<int>, g: Filter) {
    && |stale| == |mb|
    && (g.tls12 <==> f.tls12 || SeesServerHello(mb))
    && (g.tls <==> f.tls || SeesServerHello(mb) || SeesClientHello(mb))
    && g.cipher == CipherAfter(f.cipher, mb, stale)
  }

  lemma SeesSnoc(mb: seq<Slot>, x: Slot)
    ensures SeesServerHello(mb + [x]) <==> SeesServerHello(mb) || OpensServerHello(x.Data())
    ensures SeesClientHello(mb + [x]) <==> SeesClientHello(mb) || OpensClientHello(x.Data())
  {
    var all := mb + [x];
    assert all[|mb|] == x;
    forall j | 0 <= j < |mb| ensures all[j] == mb[j] {
    }
  }

  lemma CipherSnoc(before: int, mb: seq<Slot>, stale: seq<int>, x: Slot, past: int)
    requires |stale| == |mb|
    ensures CipherAfter(before, mb + [x], stale + [past]) ==
              if ShowsCipher(x.Data()) then ShownCipher(x.Data(), past) else CipherAfter(before, mb, stale)
  {
    assert (mb + [x])[..|mb|] == mb;
  }

  lemma FlagStep(f: Filter, mb: seq<Slot>, stale: seq<int>, g: Filter, x: Slot, past: int)
    requires Flagged(f, mb, stale, g)
    ensures Flagged(f, mb + [x], stale + [past], Step(g, false, x, past).0)
  {
    SeesSnoc(mb, x);
    CipherSnoc(f.cipher, mb, stale, x, past);
    if x.Buf? {
      OneBufferFlags(g, x.data, past);
    }
  }

  /** The flags after `mb` are set exactly by the hellos among the entries that were looked at. */
  lemma {:induction false} FlagsOfBuffers(f: Filter, mb: seq<Slot>, stale: seq<int>)
    requires |stale| == |mb|
    ensures var n := Watched(f.serverHello, mb);
            Flagged(f, mb[..n], stale[..n], FilterAll(f, mb, stale).0)
    decreases |mb|
  {
    if mb == [] {
    } else {
      var last := |mb| - 1;
      var front, past := mb[..last], stale[..last];
      FlagsOfBuffers(f, front, past);
      FilterUnfolds(f, mb, stale);
      BudgetOfBuffers(f, front, past);
      var (g, over) := FilterAll(f, front, past);
      FlagsUnfold(f, mb, stale, g, over);
    }
  }

  lemma FlagsUnfold(f: Filter, mb: seq<Slot>, stale: seq<int>, g: Filter, over: bool)
    requires |stale| == |mb| > 0
    requires var last := |mb| - 1;
             var n := Watched(f.serverHello, mb[..last]);
             Flagged(f, mb[..last][..n], stale[..last][..n], g) && (over <==> Decided(f.serverHello, mb[..last]))
    ensures var n := Watched(f.serverHello, mb);
            Flagged(f, mb[..n], stale[..n], Step(g, over, mb[|mb| - 1], stale[|mb| - 1]).0)
  {
    var last := |mb| - 1;
    var front, past := mb[..last], stale[..last];
    var n := Watched(f.serverHello, front);
    WatchedUnfolds(f.serverHello, mb);
    if over {
      SamePrefixes(mb, stale, last, n);
    } else {
      FlagMore(f, mb, stale, g);
    }
  }

  lemma SamePrefixes(mb: seq<Slot>, stale: seq<int>, last: nat, n: nat)
    requires n <= last <= |mb| == |stale|
    ensures mb[..last][..n] == mb[..n] && stale[..last][..n] == stale[..n]
  {
  }

  lemma FlagMore(f: Filter, mb: seq<Slot>, stale: seq<int>, g: Filter)
    requires |stale| == |mb| > 0
    requires var last := |mb| - 1;
             Flagged(f, mb[..last][..last], stale[..last][..last], g)
    ensures Flagged(f, mb[..|mb|], stale[..|mb|], Step(g, false, mb[|mb| - 1], stale[|mb| - 1]).0)
  {
    var last := |mb| - 1;
    SamePrefixes(mb, stale, last, last);
    FlagStep(f, mb[..last], stale[..last], g, mb[last], stale[last]);
    assert mb[..|mb|] == mb[..last] + [mb[last]] && stale[..|mb|] == stale[..last] + [stale[last]];
  }

  lemma WatchedUnfolds(left: int, mb: seq<Slot>)
    requires mb != []
    ensures var front := mb[..|mb| - 1];
            Watched(left, mb) == if Decided(left, front) then Watched(left, front) else |mb|
    ensures !Decided(left, mb) ==> Watched(left, mb) == |mb|
    ensures !Decided(left, mb[..|mb| - 1]) ==> Watched(left, mb[..|mb| - 1]) == |mb[..|mb| - 1]|
  {
    var front := mb[..|mb| - 1];
    UpToTrueSnoc(Verdicts(left, front), Settles(Missing(left, front), mb[|mb| - 1].Data()));
  }

  /** The buffer that settles a hello names TLS 1.3 in its part of it. */
  predicate SettledByTls13(left: int, mb: seq<Slot>) {
    && Decided(left, mb)
    && var n := Watched(left, mb);
       n > 0 && NamesTls13(PartDue(Missing(left, mb[..n - 1]), mb[n - 1].Data()))
  }

  /** XTLS is enabled exactly by a hello that names TLS 1.3, under one of the four suites that enable it. */
  lemma {:induction false} XtlsOfBuffers(f: Filter, mb: seq<Slot>, stale: seq<int>)
    requires |stale| == |mb|
    ensures var g := FilterAll(f, mb, stale).0;
            g.xtls <==> f.xtls || (SettledByTls13(f.serverHello, mb) && 0x1301 <= g.cipher <= 0x1304)
    decreases |mb|
  {
    if mb == [] {
    } else {
      var last := |mb| - 1;
      var front, past := mb[..last], stale[..last];
      XtlsOfBuffers(f, front, past);
      FilterUnfolds(f, mb, stale);
      BudgetOfBuffers(f, front, past);
      XtlsStep(f, mb, FilterAll(f, front, past).0, FilterAll(f, front, past).1, stale[last]);
    }
  }

  lemma XtlsStep(f: Filter, mb: seq<Slot>, g: Filter, over: bool, past: int)
    requires mb != []
    requires var front := mb[..|mb| - 1];
             && Budgeted(f, front, g, over)
             && (g.xtls <==> f.xtls || (SettledByTls13(f.serverHello, front) && 0x1301 <= g.cipher <= 0x1304))
    ensures var h := Step(g, over, mb[|mb| - 1], past).0;
            h.xtls <==> f.xtls || (SettledByTls13(f.serverHello, mb) && 0x1301 <= h.cipher <= 0x1304)
  {
    var left, front, x := f.serverHello, mb[..|mb| - 1], mb[|mb| - 1];
    WatchedUnfolds(left, mb);
    if over {
      var n := Watched(left, front);
      assert n > 0 ==> front[..n - 1] == mb[..n - 1];
    } else {
      SameSettling(g.serverHello, Missing(left, front), x.Data());
      if x.Buf? {
        OneBufferFlags(g, x.data, past);
      }
    }
  }

  lemma SameSettling(a: int, b: int, x: Bytes)
    requires SameMissing(a, b)
    ensures PartDue(a, x) == PartDue(b, x) && (Settles(a, x) <==> Settles(b, x))
    ensures NamesTls13(PartDue(b, x)) ==> Settles(b, x)
  {
    assert !NamesTls13([]);
  }

  // ---------- Runs

  /** The filter over the calls of a connection: it is only run while there is budget. */
  function FilterRun(f: Filter, mbs: seq<seq<Slot>>, stales: seq<seq<int>>): Filter
    requires Aligned(mbs, stales)
    decreases |mbs|
  {
    if mbs == [] then f
    else
      var last := |mbs| - 1;
      var g := FilterRun(f, mbs[..last], stales[..last]);
      if g.packets > 0 then FilterAll(g, mbs[last], stales[last]).0 else g
  }

  predicate Aligned(mbs: seq<seq<Slot>>, stales: seq<seq<int>>) {
    |stales| == |mbs| && forall i :: 0 <= i < |mbs| ==> |stales[i]| == |mbs[i]|
  }

  function Joined<T>(parts: seq<seq<T>>): seq<T> {
    if parts == [] then [] else Joined(parts[..|parts| - 1]) + parts[|parts| - 1]
  }

  lemma {:induction false} JoinedLength(mbs: seq<seq<Slot>>, stales: seq<seq<int>>)
    requires Aligned(mbs, stales)
    ensures |Joined(mbs)| == |Joined(stales)|
    decreases |mbs|
  {
    if mbs != [] {
      JoinedLength(mbs[..|mbs| - 1], stales[..|mbs| - 1]);
    }
  }

  lemma {:induction false} FilterAppend(f: Filter, a: seq<Slot>, pasts: seq<int>, b: seq<Slot>, more: seq<int>)
    requires |pasts| == |a| && |more| == |b|
    requires !FilterAll(f, a, pasts).1
    ensures FilterAll(f, a + b, pasts + more) == FilterAll(FilterAll(f, a, pasts).0, b, more)
    decreases |b|
  {
    if b == [] {
      assert a + b == a && pasts + more == pasts;
    } else {
      var last := |b| - 1;
      FilterAppend(f, a, pasts, b[..last], more[..last]);
      assert (a + b)[..|a + b| - 1] == a + b[..last] && (pasts + more)[..|a + b| - 1] == pasts + more[..last];
    }
  }

  lemma VerdictStays(left: int, a: seq<Slot>, b: seq<Slot>, j: nat)
    requires j < |a|
    ensures Verdicts(left, a + b)[j] == Verdicts(left, a)[j]
  {
    VerdictAt(left, a + b, j);
    VerdictAt(left, a, j);
    assert (a + b)[..j] == a[..j] && (a + b)[j] == a[j];
  }

  lemma DecidedStays(left: int, a: seq<Slot>, b: seq<Slot>)
    requires Decided(left, a)
    ensures Decided(left, a + b)
  {
    var j :| 0 <= j < |a| && Verdicts(left, a)[j];
    VerdictStays(left, a, b, j);
    assert Verdicts(left, a + b)[j];
  }

  lemma {:induction false} CountAppend(a: seq<Slot>, b: seq<Slot>)
    ensures CountBuffers(a + b) == CountBuffers(a) + CountBuffers(b)
    decreases |b|
  {
    if b == [] {
      assert a + b == a;
    } else {
      CountAppend(a, b[..|b| - 1]);
      assert (a + b)[..|a + b| - 1] == a + b[..|b| - 1];
    }
  }

  /** A run whose filter is still on is one pass over everything that went by. */
  predicate OnePass(f: Filter, mbs: seq<seq<Slot>>, stales: seq<seq<int>>, g: Filter) {
    |Joined(mbs)| == |Joined(stales)| && FilterAll(f, Joined(mbs), Joined(stales)) == (g, false)
  }

  /** What there is left of the budget, for every run: none as soon as a buffer has settled a hello or there have been as
      many buffers as the budget allows; before that, every buffer of every call has cost one packet. */
  lemma {:induction false} RunBudget(f: Filter, mbs: seq<seq<Slot>>, stales: seq<seq<int>>)
    requires Aligned(mbs, stales) && f.packets > 0
    ensures var g := FilterRun(f, mbs, stales);
            && (g.packets > 0 <==> !Decided(f.serverHello, Joined(mbs)) && CountBuffers(Joined(mbs)) < f.packets)
            && (g.packets > 0 ==> OnePass(f, mbs, stales, g) && g.packets == f.packets - CountBuffers(Joined(mbs)))
    decreases |mbs|
  {
    if mbs == [] {
    } else {
      var last := |mbs| - 1;
      RunBudget(f, mbs[..last], stales[..last]);
      var g := FilterRun(f, mbs[..last], stales[..last]);
      if g.packets > 0 {
        RunGoesOn(f, mbs, stales, g);
      } else {
        RunIsOver(f, Joined(mbs[..last]), mbs[last]);
      }
    }
  }

  lemma RunIsOver(f: Filter, a: seq<Slot>, b: seq<Slot>)
    requires Decided(f.serverHello, a) || CountBuffers(a) >= f.packets
    ensures Decided(f.serverHello, a + b) || CountBuffers(a + b) >= f.packets
  {
    CountAppend(a, b);
    if Decided(f.serverHello, a) {
      DecidedStays(f.serverHello, a, b);
    }
  }

  lemma RunGoesOn(f: Filter, mbs: seq<seq<Slot>>, stales: seq<seq<int>>, g: Filter)
    requires Aligned(mbs, stales) && mbs != []
    requires OnePass(f, mbs[..|mbs| - 1], stales[..|mbs| - 1], g)
    ensures var last := |mbs| - 1;
            var (h, over) := FilterAll(g, mbs[last], stales[last]);
            && (h.packets > 0 <==> !Decided(f.serverHello, Joined(mbs)) && CountBuffers(Joined(mbs)) < f.packets)
            && (h.packets > 0 ==> OnePass(f, mbs, stales, h) && h.packets == f.packets - CountBuffers(Joined(mbs)))
  {
    OnePassMore(f, mbs, stales, g);
    BudgetOfBuffers(f, Joined(mbs), Joined(stales));
  }

  /** How many calls the filter was run for. */
  function Calls(f: Filter, mbs: seq<seq<Slot>>, stales: seq<seq<int>>): (n: nat)
    requires Aligned(mbs, stales)
    ensures n <= |mbs|
  {
    if mbs == [] then 0
    else
      var last := |mbs| - 1;
      if FilterRun(f, mbs[..last], stales[..last]).packets > 0 then |mbs|
      else Calls(f, mbs[..last], stales[..last])
  }

  /** After any run the filter is what one pass over the entries of these calls leaves, and so are its flags. */
  lemma {:induction false} RunIsOnePass(f: Filter, mbs: seq<seq<Slot>>, stales: seq<seq<int>>)
    requires Aligned(mbs, stales) && f.packets > 0
    ensures var n := Calls(f, mbs, stales);
            && |Joined(mbs[..n])| == |Joined(stales[..n])|
            && FilterRun(f, mbs, stales) == FilterAll(f, Joined(mbs[..n]), Joined(stales[..n])).0
    decreases |mbs|
  {
    var n := Calls(f, mbs, stales);
    if mbs == [] {
      assert mbs[..n] == [] && stales[..n] == [];
    } else {
      var last := |mbs| - 1;
      var g := FilterRun(f, mbs[..last], stales[..last]);
      if g.packets > 0 {
        RunBudget(f, mbs[..last], stales[..last]);
        OnePassMore(f, mbs, stales, g);
        assert mbs[..n] == mbs && stales[..n] == stales;
      } else {
        RunIsOnePass(f, mbs[..last], stales[..last]);
        PrefixOfPrefix(mbs, last, n);
        PrefixOfPrefix(stales, last, n);
      }
    }
  }

  lemma PrefixOfPrefix<T>(s: seq<T>, last: nat, n: nat)
    requires n <= last <= |s|
    ensures s[..last][..n] == s[..n]
  {
  }

  lemma OnePassMore(f: Filter, mbs: seq<seq<Slot>>, stales: seq<seq<int>>, g: Filter)
    requires Aligned(mbs, stales) && mbs != []
    requires OnePass(f, mbs[..|mbs| - 1], stales[..|mbs| - 1], g)
    ensures |Joined(mbs)| == |Joined(stales)|
    ensures FilterAll(f, Joined(mbs), Joined(stales)) == FilterAll(g, mbs[|mbs| - 1], stales[|mbs| - 1])
  {
    var last := |mbs| - 1;
    JoinedLength(mbs, stales);
    FilterAppend(f, Joined(mbs[..last]), Joined(stales[..last]), mbs[last], stales[last]);
  }

  lemma RunFlags(f: Filter, mbs: seq<seq<Slot>>, stales: seq<seq<int>>)
    requires Aligned(mbs, stales) && f.packets > 0
    ensures var n, g := Calls(f, mbs, stales), FilterRun(f, mbs, stales);
            var all, pasts := Joined(mbs[..n]), Joined(stales[..n]);
            |pasts| == |all| &&
            var w := Watched(f.serverHello, all);
            && Flagged(f, all[..w], pasts[..w], g)
            && (g.xtls <==> f.xtls || (SettledByTls13(f.serverHello, all) && 0x1301 <= g.cipher <= 0x1304))
  {
    var n := Calls(f, mbs, stales);
    RunIsOnePass(f, mbs, stales);
    FlagsOfBuffers(f, Joined(mbs[..n]), Joined(stales[..n]));
    XtlsOfBuffers(f, Joined(mbs[..n]), Joined(stales[..n]));
  }

  lemma {:induction false} NoHelloNoVerdict(left: int, mb: seq<Slot>)
    requires left <= 0 && !SeesServerHello(mb)
    ensures !Decided(left, mb)
    decreases |mb|
  {
    if mb != [] {
      NoHelloNoVerdict(left, mb[..|mb| - 1]);
    }
  }

  lemma {:induction false} PartSeesNoMore(mbs: seq<seq<Slot>>, n: nat)
    requires n <= |mbs|
    ensures SeesServerHello(Joined(mbs[..n])) ==> SeesServerHello(Joined(mbs))
    ensures SeesClientHello(Joined(mbs[..n])) ==> SeesClientHello(Joined(mbs))
    decreases |mbs|
  {
    if n < |mbs| {
      var last := |mbs| - 1;
      PartSeesNoMore(mbs[..last], n);
      assert mbs[..last][..n] == mbs[..n];
      SeesMore(Joined(mbs[..last]), mbs[last]);
    } else {
      assert mbs[..n] == mbs;
    }
  }

  lemma SeesMore(a: seq<Slot>, b: seq<Slot>)
    ensures SeesServerHello(a) ==> SeesServerHello(a + b)
    ensures SeesClientHello(a) ==> SeesClientHello(a + b)
  {
    forall j | 0 <= j < |a| ensures (a + b)[j] == a[j] {
    }
  }

  /** A connection that opens no server hello is never taken for TLS 1.2 or later, and without a client hello not for TLS;
      each buffer costs one of the eight packets. */
  lemma NoHelloRunsOut(mbs: seq<seq<Slot>>, stales: seq<seq<int>>)
    requires Aligned(mbs, stales) && !SeesServerHello(Joined(mbs))
    ensures var g, n := FilterRun(FRESH_FILTER, mbs, stales), CountBuffers(Joined(mbs));
            && !g.tls12 && (!SeesClientHello(Joined(mbs)) ==> !g.tls)
            && (n < 8 ==> g.packets == 8 - n)
            && (n >= 8 ==> g.packets <= 0)
  {
    RunBudget(FRESH_FILTER, mbs, stales);
    NoHelloNoVerdict(FRESH_FILTER.serverHello, Joined(mbs));
    NoHelloNoTls(mbs, stales);
  }

  lemma NoHelloNoTls(mbs: seq<seq<Slot>>, stales: seq<seq<int>>)
    requires Aligned(mbs, stales) && !SeesServerHello(Joined(mbs))
    ensures var g := FilterRun(FRESH_FILTER, mbs, stales);
            !g.tls12 && (!SeesClientHello(Joined(mbs)) ==> !g.tls)
  {
    RunFlags(FRESH_FILTER, mbs, stales);
    var n := Calls(FRESH_FILTER, mbs, stales);
    var all := Joined(mbs[..n]);
    PartSeesNoMore(mbs, n);
    PrefixSeesNoMore(all, Watched(FRESH_FILTER.serverHello, all));
  }

  lemma PrefixSeesNoMore(mb: seq<Slot>, n: nat)
    requires n <= |mb|
    ensures SeesServerHello(mb[..n]) ==> SeesServerHello(mb)
    ensures SeesClientHello(mb[..n]) ==> SeesClientHello(mb)
  {
    SeesMore(mb[..n], mb[n..]);
    assert mb[..n] + mb[n..] == mb;
  }
}
