/** What the signature of a routing rule tells apart. */
module RuleSignatures {
  import opened ConfigMerge
  import opened Json

  /** The keys under which rules are compared. */
  predicate Compared(k: string) {
    || k == "type" || k == "outboundTag" || k == "balancerTag" || k == "inboundTag" || k == "ip"
    || k == "domain" || k == "user" || k == "protocol" || k == "network" || k == "source"
    || k == "port" || k == "sourcePort" || k == "marktag"
  }

  lemma ComparedKeys(k: string)
    ensures Compared(k) <==> k in SIGNATURE_KEYS
  {
    if k in SIGNATURE_KEYS {
      var i :| 0 <= i < |SIGNATURE_KEYS| && SIGNATURE_KEYS[i] == k;
    }
    if Compared(k) {
      assert SIGNATURE_KEYS[0] == "type" && SIGNATURE_KEYS[1] == "outboundTag" && SIGNATURE_KEYS[2] == "balancerTag";
      assert SIGNATURE_KEYS[3] == "inboundTag" && SIGNATURE_KEYS[4] == "ip" && SIGNATURE_KEYS[5] == "domain";
      assert SIGNATURE_KEYS[6] == "user" && SIGNATURE_KEYS[7] == "protocol" && SIGNATURE_KEYS[8] == "network";
      assert SIGNATURE_KEYS[9] == "source" && SIGNATURE_KEYS[10] == "port" && SIGNATURE_KEYS[11] == "sourcePort";
      assert SIGNATURE_KEYS[12] == "marktag";
    }
  }

  lemma KeysDiffer(i: nat, j: nat)
    requires i < j < |SIGNATURE_KEYS|
    ensures SIGNATURE_KEYS[i] != SIGNATURE_KEYS[j]
  {
  }

  lemma KeysArePlain(i: nat)
    requires i < |SIGNATURE_KEYS|
    ensures ':' !in SIGNATURE_KEYS[i] && '|' !in SIGNATURE_KEYS[i]
  {
  }

  // ---------- Joined lists

  predicate PlainWords(xs: seq<string>, c: char) {
    forall i :: 0 <= i < |xs| ==> xs[i] != "" && c !in xs[i]
  }

  lemma HeadOfJoin(xs: seq<string>, c: char)
    requires xs != [] && PlainWords(xs, c)
    ensures var s := JoinWith(xs, [c]);
            && xs[0] <= s && (|xs| == 1 <==> c !in s)
            && (|xs| > 1 ==> s == xs[0] + [c] + JoinWith(xs[1..], [c]))
  {
    if |xs| > 1 {
      assert JoinWith(xs, [c])[|xs[0]|] == c;
    }
  }

  lemma SameHead(a: string, b: string, c: char, x: string, y: string)
    requires c !in a && c !in b && a + [c] + x == b + [c] + y
    ensures a == b && x == y
  {
    var s := a + [c] + x;
    assert s[|a|] == c && s[|b|] == c;
    assert a == s[..|a|] && b == s[..|b|];
    assert x == s[|a| + 1..] && y == s[|b| + 1..];
  }

  /** Plain words can be read back from their join. */
  lemma {:induction false} JoinTells(xs: seq<string>, ys: seq<string>, c: char)
    requires PlainWords(xs, c) && PlainWords(ys, c)
    ensures JoinWith(xs, [c]) == JoinWith(ys, [c]) ==> xs == ys
  {
    if JoinWith(xs, [c]) == JoinWith(ys, [c]) {
      if xs != [] {
        HeadOfJoin(xs, c);
      }
      if ys != [] {
        HeadOfJoin(ys, c);
      }
      if |xs| > 1 && |ys| > 1 {
        SameHead(xs[0], ys[0], c, JoinWith(xs[1..], [c]), JoinWith(ys[1..], [c]));
        JoinTells(xs[1..], ys[1..], c);
        assert xs == [xs[0]] + xs[1..] && ys == [ys[0]] + ys[1..];
      }
    }
  }

  // ---------- What a part tells

  /** A value whose print is unmistakable within a signature. */
  predicate PlainValue(sprint: Printer, v: Json) {
    match v
    case Null => true
    case Arr(items) => forall i :: 0 <= i < |items| ==> sprint(items[i]) != "" && ',' !in sprint(items[i]) && '|' !in sprint(items[i])
    case _ => '|' !in sprint(v) && !("[" <= sprint(v))
  }

  predicate PlainRule(sprint: Printer, r: Json) {
    r.Obj? && forall k :: k in r.fields && Compared(k) ==> PlainValue(sprint, r.fields[k])
  }

  /** Two values that print alike; of arrays the order does not count. */
  predicate SamePrint(sprint: Printer, v: Json, w: Json) {
    if v.Arr? && w.Arr? then multiset(PrintAll(sprint, v.items)) == multiset(PrintAll(sprint, w.items))
    else v.Arr? == w.Arr? && v.Null? == w.Null? && (!v.Null? ==> sprint(v) == sprint(w))
  }

  lemma {:induction false} InsertKeeps(x: string, xs: seq<string>)
    ensures multiset(Insert(x, xs)) == multiset{x} + multiset(xs)
  {
    if xs != [] && !LessEq(x, xs[0]) {
      InsertKeeps(x, xs[1..]);
      assert xs == [xs[0]] + xs[1..];
    }
  }

  lemma {:induction false} SortKeeps(xs: seq<string>)
    ensures multiset(SortStrings(xs)) == multiset(xs)
  {
    if xs != [] {
      SortKeeps(xs[1..]);
      InsertKeeps(xs[0], SortStrings(xs[1..]));
      assert xs == [xs[0]] + xs[1..];
    }
  }

  lemma SortedWordsArePlain(xs: seq<string>, c: char)
    requires PlainWords(xs, c)
    ensures PlainWords(SortStrings(xs), c)
  {
    SortKeeps(xs);
    var ys := SortStrings(xs);
    forall i | 0 <= i < |ys|
      ensures ys[i] in xs
    {
      assert ys[i] in multiset(ys);
    }
  }

  lemma {:induction false} PrintAllAt(sprint: Printer, items: seq<Json>, i: nat)
    requires i < |items|
    ensures PrintAll(sprint, items)[i] == sprint(items[i])
  {
    if i > 0 {
      PrintAllAt(sprint, items[1..], i - 1);
    }
  }

  function Listed(sprint: Printer, items: seq<Json>): string {
    JoinWith(SortStrings(PrintAll(sprint, items)), ",")
  }

  lemma ListTells(sprint: Printer, v: seq<Json>, w: seq<Json>)
    requires PlainValue(sprint, Arr(v)) && PlainValue(sprint, Arr(w))
    ensures Listed(sprint, v) == Listed(sprint, w) <==> multiset(PrintAll(sprint, v)) == multiset(PrintAll(sprint, w))
  {
    var ps, qs := PrintAll(sprint, v), PrintAll(sprint, w);
    if multiset(ps) == multiset(qs) {
      SortPermuted(ps, qs);
    }
    if Listed(sprint, v) == Listed(sprint, w) {
      forall i | 0 <= i < |v| ensures ps[i] == sprint(v[i]) {
        PrintAllAt(sprint, v, i);
      }
      forall i | 0 <= i < |w| ensures qs[i] == sprint(w[i]) {
        PrintAllAt(sprint, w, i);
      }
      SortedWordsArePlain(ps, ',');
      SortedWordsArePlain(qs, ',');
      JoinTells(SortStrings(ps), SortStrings(qs), ',');
      SortKeeps(ps);
      SortKeeps(qs);
    }
  }

  lemma SameBehind(k: string, a: string, b: string)
    ensures k + a == k + b <==> a == b
  {
    if k + a == k + b {
      assert a == (k + a)[|k|..] == (k + b)[|k|..] == b;
    }
  }

  lemma ListIsNoText(k: string, list: string, text: string)
    requires !("[" <= text)
    ensures k + ":[" + list + "]" != k + ":" + text
  {
    var s, t := k + ":[" + list + "]", k + ":" + text;
    assert s[|k| + 1] == '[' && t[|k| + 1..] == text;
  }

  lemma SameLists(k: string, a: string, b: string)
    ensures k + ":[" + a + "]" == k + ":[" + b + "]" <==> a == b
  {
    if k + ":[" + a + "]" == k + ":[" + b + "]" {
      var s := k + ":[" + a + "]";
      var n := |k + ":["|;
      assert a == s[n..|s| - 1] && b == s[n..|s| - 1];
    }
  }

  /** One part of the signature tells whether the values under its key print alike. */
  lemma PartTells(sprint: Printer, a: map<string, Json>, b: map<string, Json>, k: string)
    requires PlainValue(sprint, Field(a, k)) && PlainValue(sprint, Field(b, k))
    ensures Part(sprint, a, k) == Part(sprint, b, k) <==> SamePrint(sprint, Field(a, k), Field(b, k))
  {
    var v, w := Field(a, k), Field(b, k);
    if v.Arr? && w.Arr? {
      ListTells(sprint, v.items, w.items);
      SameLists(k, Listed(sprint, v.items), Listed(sprint, w.items));
    } else if v.Arr? && !w.Null? {
      ListIsNoText(k, Listed(sprint, v.items), sprint(w));
    } else if w.Arr? && !v.Null? {
      ListIsNoText(k, Listed(sprint, w.items), sprint(v));
    } else if !v.Null? && !w.Null? {
      SameBehind(k + ":", sprint(v), sprint(w));
    }
  }

  // ---------- The whole signature

  lemma {:induction false} JoinAvoids(xs: seq<string>, separator: string, c: char)
    requires c !in separator && forall i :: 0 <= i < |xs| ==> c !in xs[i]
    ensures c !in JoinWith(xs, separator)
  {
    if |xs| > 1 {
      JoinAvoids(xs[1..], separator, c);
    }
  }

  lemma ListedAvoids(sprint: Printer, items: seq<Json>)
    requires PlainValue(sprint, Arr(items))
    ensures '|' !in Listed(sprint, items)
  {
    var ps := PrintAll(sprint, items);
    forall i | 0 <= i < |items| ensures ps[i] == sprint(items[i]) {
      PrintAllAt(sprint, items, i);
    }
    assert PlainWords(ps, '|');
    SortedWordsArePlain(ps, '|');
    JoinAvoids(SortStrings(ps), ",", '|');
  }

  /** The part of a key starts with the key, and can be told from its neighbours. */
  lemma PartIsLabelled(sprint: Printer, fields: map<string, Json>, i: nat)
    requires i < |SIGNATURE_KEYS| && PlainValue(sprint, Field(fields, SIGNATURE_KEYS[i]))
    ensures var part, k := Part(sprint, fields, SIGNATURE_KEYS[i]), SIGNATURE_KEYS[i];
            |part| <= 1 && PlainWords(part, '|') && (part != [] ==> k + ":" <= part[0])
  {
    var k, v := SIGNATURE_KEYS[i], Field(fields, SIGNATURE_KEYS[i]);
    KeysArePlain(i);
    if v.Arr? {
      ListedAvoids(sprint, v.items);
      assert k + ":" <= k + ":[" + Listed(sprint, v.items) + "]";
    }
  }

  lemma LabelsDiffer(i: nat, j: nat, s: string)
    requires i < j < |SIGNATURE_KEYS|
    ensures !(SIGNATURE_KEYS[i] + ":" <= s && SIGNATURE_KEYS[j] + ":" <= s)
  {
    KeysDiffer(i, j);
    KeysArePlain(i);
    KeysArePlain(j);
    OneLabel(SIGNATURE_KEYS[i], SIGNATURE_KEYS[j], s);
  }

  lemma OneLabel(k: string, l: string, s: string)
    requires ':' !in k && ':' !in l && k != l
    ensures !(k + ":" <= s && l + ":" <= s)
  {
    if k + ":" <= s && l + ":" <= s {
      SameHead(k, l, ':', s[|k| + 1..], s[|l| + 1..]);
    }
  }

  /** A part of one of the first `n` keys. */
  predicate LabelledBefore(n: nat, s: string) {
    exists j :: 0 <= j < n && j < |SIGNATURE_KEYS| && SIGNATURE_KEYS[j] + ":" <= s
  }

  lemma {:induction false} PartsAreLabelled(sprint: Printer, r: Json, n: nat)
    requires PlainRule(sprint, r) && n <= |SIGNATURE_KEYS|
    ensures PlainWords(Parts(sprint, r.fields, n), '|')
    ensures forall i :: 0 <= i < |Parts(sprint, r.fields, n)| ==> LabelledBefore(n, Parts(sprint, r.fields, n)[i])
  {
    if n > 0 {
      PartsAreLabelled(sprint, r, n - 1);
      PlainAt(sprint, r, n - 1);
      PartIsLabelled(sprint, r.fields, n - 1);
      LabelledMore(Parts(sprint, r.fields, n - 1), Part(sprint, r.fields, SIGNATURE_KEYS[n - 1]), n - 1);
    }
  }

  lemma LabelledMore(xs: seq<string>, x: seq<string>, i: nat)
    requires i < |SIGNATURE_KEYS| && PlainWords(xs, '|') && PlainWords(x, '|') && |x| <= 1
    requires (forall k :: 0 <= k < |xs| ==> LabelledBefore(i, xs[k])) && (x != [] ==> SIGNATURE_KEYS[i] + ":" <= x[0])
    ensures PlainWords(xs + x, '|') && forall k :: 0 <= k < |xs + x| ==> LabelledBefore(i + 1, (xs + x)[k])
  {
    forall k | 0 <= k < |xs + x|
      ensures LabelledBefore(i + 1, (xs + x)[k])
    {
      if k < |xs| {
        assert (xs + x)[k] == xs[k] && LabelledBefore(i, xs[k]);
      }
    }
  }

  lemma PlainAt(sprint: Printer, r: Json, i: nat)
    requires PlainRule(sprint, r) && i < |SIGNATURE_KEYS|
    ensures PlainValue(sprint, Field(r.fields, SIGNATURE_KEYS[i]))
  {
    ComparedKeys(SIGNATURE_KEYS[i]);
  }

  lemma NotItsLabel(i: nat, s: string)
    requires i < |SIGNATURE_KEYS| && LabelledBefore(i, s)
    ensures !(SIGNATURE_KEYS[i] + ":" <= s)
  {
    var j :| 0 <= j < i && j < |SIGNATURE_KEYS| && SIGNATURE_KEYS[j] + ":" <= s;
    LabelsDiffer(j, i, s);
  }

  /** The last of a list of parts decides whether the last key has one. */
  lemma LastPart(i: nat, xs: seq<string>, x: seq<string>, ys: seq<string>, y: seq<string>)
    requires i < |SIGNATURE_KEYS| && |x| <= 1 && |y| <= 1 && xs + x == ys + y
    requires (forall k :: 0 <= k < |xs| ==> LabelledBefore(i, xs[k])) && (forall k :: 0 <= k < |ys| ==> LabelledBefore(i, ys[k]))
    requires (x != [] ==> SIGNATURE_KEYS[i] + ":" <= x[0]) && (y != [] ==> SIGNATURE_KEYS[i] + ":" <= y[0])
    ensures xs == ys && x == y
  {
    if |x| < |y| {
      assert y[0] == (ys + y)[|ys|] == xs[|xs| - 1];
      NotItsLabel(i, y[0]);
    } else if |y| < |x| {
      assert x[0] == (xs + x)[|xs|] == ys[|ys| - 1];
      NotItsLabel(i, x[0]);
    } else {
      assert xs == (xs + x)[..|xs|] && ys == (ys + y)[..|ys|];
      assert x == (xs + x)[|xs|..] && y == (ys + y)[|ys|..];
    }
  }

  /** The parts of the i-th key are alike. */
  predicate SamePart(sprint: Printer, a: Json, b: Json, i: nat)
    requires a.Obj? && b.Obj? && i < |SIGNATURE_KEYS|
  {
    Part(sprint, a.fields, SIGNATURE_KEYS[i]) == Part(sprint, b.fields, SIGNATURE_KEYS[i])
  }

  predicate EqualParts(sprint: Printer, a: Json, b: Json, n: nat)
    requires a.Obj? && b.Obj? && n <= |SIGNATURE_KEYS|
  {
    Parts(sprint, a.fields, n) == Parts(sprint, b.fields, n)
  }

  lemma PartsTellStep(sprint: Printer, a: Json, b: Json, i: nat)
    requires PlainRule(sprint, a) && PlainRule(sprint, b) && i < |SIGNATURE_KEYS|
    ensures EqualParts(sprint, a, b, i + 1) <==> EqualParts(sprint, a, b, i) && SamePart(sprint, a, b, i)
  {
    PartsAreLabelled(sprint, a, i);
    PartsAreLabelled(sprint, b, i);
    PlainAt(sprint, a, i);
    PlainAt(sprint, b, i);
    PartIsLabelled(sprint, a.fields, i);
    PartIsLabelled(sprint, b.fields, i);
    var k := SIGNATURE_KEYS[i];
    if Parts(sprint, a.fields, i) + Part(sprint, a.fields, k) == Parts(sprint, b.fields, i) + Part(sprint, b.fields, k) {
      LastPart(i, Parts(sprint, a.fields, i), Part(sprint, a.fields, k), Parts(sprint, b.fields, i), Part(sprint, b.fields, k));
    }
  }

  /** All parts are alike exactly if each of them is. */
  lemma PartsTell(sprint: Printer, a: Json, b: Json, n: nat)
    requires PlainRule(sprint, a) && PlainRule(sprint, b) && n <= |SIGNATURE_KEYS|
    ensures EqualParts(sprint, a, b, n) <==> SameParts(sprint, a, b, n)
  {
    var equal := seq(n + 1, i requires 0 <= i <= n => EqualParts(sprint, a, b, i));
    var same := seq(n, i requires 0 <= i < n => SamePart(sprint, a, b, i));
    forall i | 0 <= i < n
      ensures equal[i + 1] == (equal[i] && same[i])
    {
      PartsTellStep(sprint, a, b, i);
    }
    AsLongAsAll(equal, same);
    assert forall i :: 0 <= i < n ==> same[i] == SamePart(sprint, a, b, i);
  }

  /** What starts true and stays so as long as each step holds ends true exactly if all do. */
  lemma {:induction false} AsLongAsAll(holds: seq<bool>, steps: seq<bool>)
    requires |holds| == |steps| + 1 && holds[0]
    requires forall i :: 0 <= i < |steps| ==> holds[i + 1] == (holds[i] && steps[i])
    ensures holds[|steps|] <==> forall i :: 0 <= i < |steps| ==> steps[i]
    decreases |steps|
  {
    if steps != [] {
      var last := |steps| - 1;
      AsLongAsAll(holds[..last + 1], steps[..last]);
    }
  }

  predicate SameParts(sprint: Printer, a: Json, b: Json, n: nat)
    requires a.Obj? && b.Obj? && n <= |SIGNATURE_KEYS|
  {
    forall i :: 0 <= i < n ==> SamePart(sprint, a, b, i)
  }

  /** Plain rules have one signature exactly if they print alike under each of the 13 keys. */
  lemma SignatureTells(sprint: Printer, a: Json, b: Json)
    requires PlainRule(sprint, a) && PlainRule(sprint, b)
    ensures Signature(sprint, a) == Signature(sprint, b) <==>
            forall k :: Compared(k) ==> SamePrint(sprint, Field(a.fields, k), Field(b.fields, k))
  {
    var n := |SIGNATURE_KEYS|;
    PartsAreLabelled(sprint, a, n);
    PartsAreLabelled(sprint, b, n);
    JoinTells(Parts(sprint, a.fields, n), Parts(sprint, b.fields, n), '|');
    PartsTell(sprint, a, b, n);
    PartsByKey(sprint, a, b);
  }

  lemma PartsByKey(sprint: Printer, a: Json, b: Json)
    requires PlainRule(sprint, a) && PlainRule(sprint, b)
    ensures SameParts(sprint, a, b, |SIGNATURE_KEYS|) <==>
            forall k :: Compared(k) ==> SamePrint(sprint, Field(a.fields, k), Field(b.fields, k))
  {
    forall i | 0 <= i < |SIGNATURE_KEYS|
      ensures Compared(SIGNATURE_KEYS[i])
      ensures SamePart(sprint, a, b, i) <==>
              SamePrint(sprint, Field(a.fields, SIGNATURE_KEYS[i]), Field(b.fields, SIGNATURE_KEYS[i]))
    {
      ComparedKeys(SIGNATURE_KEYS[i]);
      PlainAt(sprint, a, i);
      PlainAt(sprint, b, i);
      PartTells(sprint, a.fields, b.fields, SIGNATURE_KEYS[i]);
    }
    forall k | Compared(k)
      ensures k in SIGNATURE_KEYS
    {
      ComparedKeys(k);
    }
  }

  ghost predicate PrintsAlike(sprint: Printer, a: Json, b: Json) {
    a.Obj? && b.Obj? && forall k :: Compared(k) ==> SamePrint(sprint, Field(a.fields, k), Field(b.fields, k))
  }

  /** Which of the user's rules a merge keeps, if nothing prints ambiguously: those that have no marktag of the template's and
      print unlike each of its rules under some key. */
  lemma PlainRuleSurvives(sprint: Printer, es: seq<Json>, ts: seq<Json>, r: Json)
    requires PlainRule(sprint, r) && forall x :: x in ts ==> PlainRule(sprint, x)
    ensures r in MergedRules(sprint, es, ts) <==>
            r in ts ||
            (r in es && forall x :: x in ts ==> !PrintsAlike(sprint, r, x) && !(Marktag(r) != "" && Marktag(r) == Marktag(x)))
  {
    RuleSurvivesExactly(sprint, es, ts, r);
    forall x | x in ts
      ensures Signature(sprint, r) == Signature(sprint, x) <==> PrintsAlike(sprint, r, x)
    {
      SignatureTells(sprint, r, x);
    }
  }
}
