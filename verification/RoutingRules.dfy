/** Priority classes of routing rules: the order the router must see them in. */
module RoutingRules {
  import opened Filters
  import opened Json

  /** strings.Split(s, ":") has one part more than there are colons. */
  function Colons(s: string): nat {
    if s == "" then 0 else (if s[0] == ':' then 1 else 0) + Colons(s[1..])
  }

  /** ClassifyRulePriority. A rule that is not an object is a nil map. */
  function Priority(rule: Json): (p: int)
    ensures -1 <= p <= 4
  {
    if !rule.Obj? then 4
    else
      var outboundTag := StringField(rule.fields, "outboundTag");
      var marktag := StringField(rule.fields, "marktag");
      if outboundTag == "nginx" then -1
      else if HasPrefix(outboundTag, "tunnel-") then 0
      else if HasPrefix(marktag, "routed:") then
        if Colons(marktag) + 1 == 4 then 1 else 2
      else if marktag == "home_broadband_warp" || marktag == "speedtest_warp" then 3
      else 4
  }

  function InClass(p: int): Json -> bool {
    (r: Json) => Priority(r) == p
  }

  /** The rules of one class, in order. */
  function Class(rules: seq<Json>, p: int): (r: seq<Json>) {
    Filter(rules, InClass(p))
  }

  predicate Sorted(rules: seq<Json>) {
    forall i, j :: 0 <= i < j < |rules| ==> Priority(rules[i]) <= Priority(rules[j])
  }

  /** The classes from p on, one after the other. */
  function Classes(rules: seq<Json>, p: int): (r: seq<Json>)
    decreases 5 - p
  {
    if p > 4 then [] else Class(rules, p) + Classes(rules, p + 1)
  }

  /** sort.SliceStable by priority. */
  function StableSort(rules: seq<Json>): (r: seq<Json>) {
    Classes(rules, -1)
  }

  lemma ClassAppend(xs: seq<Json>, ys: seq<Json>, p: int)
    ensures Class(xs + ys, p) == Class(xs, p) + Class(ys, p)
  {
    FilterAppend(xs, ys, InClass(p));
  }

  lemma ClassMembers(rules: seq<Json>, p: int)
    ensures forall r :: r in Class(rules, p) <==> r in rules && Priority(r) == p
  {
    FilterMembers(rules, InClass(p));
  }

  lemma ClassOfClass(rules: seq<Json>, p: int, q: int)
    ensures Class(Class(rules, p), q) == if p == q then Class(rules, p) else []
  {
    ClassMembers(rules, p);
    if p == q {
      FilterKeepsAll(Class(rules, p), InClass(q));
    } else {
      FilterDropsAll(Class(rules, p), InClass(q));
    }
  }

  /** Sorting moves no rule within its class. */
  lemma {:induction false} ClassOfClasses(rules: seq<Json>, p: int, q: int)
    ensures Class(Classes(rules, p), q) == if p <= q <= 4 then Class(rules, q) else []
    decreases 5 - p
  {
    if p <= 4 {
      ClassAppend(Class(rules, p), Classes(rules, p + 1), q);
      ClassOfClass(rules, p, q);
      ClassOfClasses(rules, p + 1, q);
    }
  }

  lemma {:induction false} ClassesSorted(rules: seq<Json>, p: int)
    ensures Sorted(Classes(rules, p))
    ensures forall r :: r in Classes(rules, p) ==> p <= Priority(r)
    decreases 5 - p
  {
    if p <= 4 {
      ClassMembers(rules, p);
      ClassesSorted(rules, p + 1);
      var front, back := Class(rules, p), Classes(rules, p + 1);
      forall i, j | 0 <= i < j < |front + back|
        ensures Priority((front + back)[i]) <= Priority((front + back)[j])
      {
        if j < |front| {
          assert front[i] in front && front[j] in front;
        } else if i < |front| {
          assert front[i] in front && back[j - |front|] in back;
        }
      }
    }
  }

  lemma {:induction false} NoneAbove(rules: seq<Json>, q: int)
    requires forall r :: r in rules ==> Priority(r) < q
    ensures Classes(rules, q) == []
    decreases 5 - q
  {
    if q <= 4 {
      FilterDropsAll(rules, InClass(q));
      NoneAbove(rules, q + 1);
    }
  }

  lemma {:induction false} ClassesSnocAbove(rules: seq<Json>, x: Json, q: int)
    requires Priority(x) < q
    ensures Classes(rules + [x], q) == Classes(rules, q)
    decreases 5 - q
  {
    if q <= 4 {
      FilterSnoc(rules, x, InClass(q));
      ClassesSnocAbove(rules, x, q + 1);
    }
  }

  lemma Regroup(a: seq<Json>, b: seq<Json>, c: seq<Json>)
    ensures a + (b + c) == (a + b) + c
  {
  }

  lemma {:induction false} ClassesSnoc(rules: seq<Json>, x: Json, q: int)
    requires q <= Priority(x) && forall r :: r in rules ==> Priority(r) <= Priority(x)
    ensures Classes(rules + [x], q) == Classes(rules, q) + [x]
    decreases 5 - q
  {
    var here := Class(rules, q);
    FilterSnoc(rules, x, InClass(q));
    if q == Priority(x) {
      ClassesSnocAbove(rules, x, q + 1);
      NoneAbove(rules, q + 1);
      assert Classes(rules + [x], q) == (here + [x]) + [];
      assert Classes(rules, q) == here + [];
      NothingAdded(here);
      NothingAdded(here + [x]);
    } else {
      ClassesSnoc(rules, x, q + 1);
      NothingAdded(here);
      Regroup(here, Classes(rules, q + 1), [x]);
    }
  }

  lemma NothingAdded(a: seq<Json>)
    ensures a + [] == a
  {
  }

  /** A sorted list is its classes in order. */
  lemma {:induction false} SortedFrom(rules: seq<Json>, q: int)
    requires Sorted(rules) && forall r :: r in rules ==> q <= Priority(r)
    ensures Classes(rules, q) == rules
    decreases |rules|
  {
    if rules == [] {
      NoneAbove(rules, q);
    } else {
      var front, x := rules[..|rules| - 1], rules[|rules| - 1];
      LastIsGreatest(rules, front, x);
      SortedFrom(front, q);
      ClassesSnoc(front, x, q);
    }
  }

  lemma LastIsGreatest(rules: seq<Json>, front: seq<Json>, x: Json)
    requires Sorted(rules) && rules != [] && front == rules[..|rules| - 1] && x == rules[|rules| - 1]
    ensures rules == front + [x] && x in rules && Sorted(front)
    ensures forall r :: r in front ==> r in rules && Priority(r) <= Priority(x)
  {
  }

  lemma SortedIsClasses(rules: seq<Json>)
    requires Sorted(rules)
    ensures StableSort(rules) == rules
  {
    SortedFrom(rules, -1);
  }

  /** Stable sorting is determined by its classes: two lists with the same classes sort alike, and a sorted
      list is the only sorted one with its classes. */
  lemma SameClassesSortAlike(xs: seq<Json>, ys: seq<Json>)
    requires forall p :: -1 <= p <= 4 ==> Class(xs, p) == Class(ys, p)
    ensures StableSort(xs) == StableSort(ys)
  {
    ClassesAlike(xs, ys, -1);
  }

  lemma {:induction false} ClassesAlike(xs: seq<Json>, ys: seq<Json>, q: int)
    requires -1 <= q && forall p :: q <= p <= 4 ==> Class(xs, p) == Class(ys, p)
    ensures Classes(xs, q) == Classes(ys, q)
    decreases 5 - q
  {
    if q <= 4 {
      ClassesAlike(xs, ys, q + 1);
    }
  }

  lemma SortIsUnique(rules: seq<Json>, xs: seq<Json>)
    requires Sorted(xs) && forall p :: -1 <= p <= 4 ==> Class(xs, p) == Class(rules, p)
    ensures xs == StableSort(rules)
  {
    SameClassesSortAlike(xs, rules);
    SortedIsClasses(xs);
    ClassesAlike(xs, rules, -1);
  }

  lemma {:induction false} ClassesPermute(rules: seq<Json>, x: Json, q: int)
    ensures multiset(Classes(rules + [x], q)) == multiset(Classes(rules, q)) + (if q <= Priority(x) then multiset{x} else multiset{})
    decreases 5 - q
  {
    if q <= 4 {
      FilterSnoc(rules, x, InClass(q));
      ClassesPermute(rules, x, q + 1);
    }
  }

  lemma PermutesStep(front: seq<Json>, x: Json, q: int)
    requires q <= -1 && multiset(Classes(front, q)) == multiset(front)
    ensures multiset(Classes(front + [x], q)) == multiset(front + [x])
  {
    ClassesPermute(front, x, q);
  }

  lemma {:induction false} PermutesFrom(rules: seq<Json>, q: int)
    requires q <= -1
    ensures multiset(Classes(rules, q)) == multiset(rules)
    decreases |rules|
  {
    if rules == [] {
      NoneAbove(rules, q);
    } else {
      var front, x := rules[..|rules| - 1], rules[|rules| - 1];
      PermutesFrom(front, q);
      PermutesStep(front, x, q);
      assert rules == front + [x];
    }
  }

  /** Sorting neither loses nor invents rules. */
  lemma SortPermutes(rules: seq<Json>)
    ensures multiset(StableSort(rules)) == multiset(rules)
    ensures |StableSort(rules)| == |rules|
  {
    PermutesFrom(rules, -1);
    assert |multiset(StableSort(rules))| == |multiset(rules)|;
  }

  /** What a test keeps of a class is the class of what it keeps. */
  lemma FilterClass(rules: seq<Json>, keep: Json -> bool, p: int)
    ensures Filter(Class(rules, p), keep) == Class(Filter(rules, keep), p)
  {
    FiltersCommute(rules, InClass(p), keep);
  }

  /** Sorting and keeping commute. */
  lemma {:induction false} FilterClasses(rules: seq<Json>, keep: Json -> bool, p: int)
    ensures Filter(Classes(rules, p), keep) == Classes(Filter(rules, keep), p)
    decreases 5 - p
  {
    if p <= 4 {
      FilterClass(rules, keep, p);
      FilterAppend(Class(rules, p), Classes(rules, p + 1), keep);
      FilterClasses(rules, keep, p + 1);
    }
  }

  /** Sorting part of a list first makes no difference. */
  lemma SortTail(ts: seq<Json>, us: seq<Json>)
    ensures StableSort(ts + StableSort(us)) == StableSort(ts + us)
  {
    forall p | -1 <= p <= 4
      ensures Class(ts + StableSort(us), p) == Class(ts + us, p)
    {
      ClassAppend(ts, StableSort(us), p);
      ClassAppend(ts, us, p);
      ClassOfClasses(us, -1, p);
    }
    SameClassesSortAlike(ts + StableSort(us), ts + us);
  }

  // ---------- The order, on the fields of the rules

  /** The rule is an object that has this text under a key. */
  predicate Says(rule: Json, key: string, text: string) {
    rule.Obj? && key in rule.fields && rule.fields[key] == Str(text)
  }

  /** The rule is an object that has a text with this prefix under a key. */
  predicate Begins(rule: Json, key: string, prefix: string) {
    rule.Obj? && key in rule.fields && rule.fields[key].Str? && prefix <= rule.fields[key].text
  }

  predicate FourParts(s: string, a: string, b: string, c: string, d: string) {
    s == a + ":" + b + ":" + c + ":" + d && ':' !in a && ':' !in b && ':' !in c && ':' !in d
  }

  ghost predicate HasFourParts(s: string) {
    exists a, b, c, d :: FourParts(s, a, b, c, d)
  }

  /** The fallback to the site that an inbound pretends to be. */
  predicate ToNginx(rule: Json) {
    Says(rule, "outboundTag", "nginx")
  }

  /** A port forward. */
  predicate Forwards(rule: Json) {
    Begins(rule, "outboundTag", "tunnel-")
  }

  predicate Routed(rule: Json) {
    Begins(rule, "marktag", "routed:")
  }

  /** An outbound of a user's own. */
  ghost predicate RoutedByUser(rule: Json) {
    Routed(rule) && HasFourParts(rule.fields["marktag"].text)
  }

  predicate IsPreset(rule: Json) {
    Says(rule, "marktag", "home_broadband_warp") || Says(rule, "marktag", "speedtest_warp")
  }

  /** The rule is of one of the first kinds, up to this one. */
  ghost predicate UpTo(kind: int, rule: Json) {
    || (kind >= 0 && ToNginx(rule))
    || (kind >= 1 && Forwards(rule))
    || (kind >= 2 && RoutedByUser(rule))
    || (kind >= 3 && Routed(rule))
    || (kind >= 4 && IsPreset(rule))
  }

  /** The order that the router needs: rules to nginx, then port forwards, then what users have routed, then other routed
      outbounds, then the two presets, then everything else. */
  ghost predicate InOrder(rules: seq<Json>) {
    forall kind, i, j :: 0 <= kind <= 4 && 0 <= i < j < |rules| && UpTo(kind, rules[j]) ==> UpTo(kind, rules[i])
  }

  lemma {:induction false} ColonsAppend(a: string, b: string)
    ensures Colons(a + b) == Colons(a) + Colons(b)
  {
    if a == "" {
      assert a + b == b;
    } else {
      assert (a + b)[1..] == a[1..] + b;
      ColonsAppend(a[1..], b);
    }
  }

  lemma {:induction false} NoColons(s: string)
    ensures Colons(s) == 0 <==> ':' !in s
  {
    if s != "" {
      NoColons(s[1..]);
      assert s == [s[0]] + s[1..];
    }
  }

  lemma ColonsBehind(a: string, b: string)
    requires ':' !in a
    ensures Colons(a + ":" + b) == 1 + Colons(b)
  {
    NoColons(a);
    ColonsAppend(a + ":", b);
    ColonsAppend(a, ":");
    assert Colons(":") == 1;
  }

  lemma {:induction false} CutAtColon(s: string) returns (a: string, b: string)
    requires Colons(s) > 0
    ensures ':' !in a && s == a + ":" + b && Colons(s) == 1 + Colons(b)
  {
    if s[0] == ':' {
      a, b := "", s[1..];
      assert s == [s[0]] + s[1..];
    } else {
      var rest;
      rest, b := CutAtColon(s[1..]);
      a := [s[0]] + rest;
      assert s == [s[0]] + s[1..];
    }
  }

  lemma ColonsOfParts(s: string, a: string, b: string, c: string, d: string)
    requires FourParts(s, a, b, c, d)
    ensures Colons(s) == 3
  {
    assert s == a + ":" + (b + ":" + (c + ":" + d));
    NoColons(d);
    ColonsBehind(c, d);
    ColonsBehind(b, c + ":" + d);
    ColonsBehind(a, b + ":" + (c + ":" + d));
  }

  lemma CutInFour(s: string)
    requires Colons(s) == 3
    ensures HasFourParts(s)
  {
    var a, bcd := CutAtColon(s);
    var b, cd := CutAtColon(bcd);
    var c, d := CutAtColon(cd);
    NoColons(d);
    assert s == a + ":" + b + ":" + c + ":" + d;
    assert FourParts(s, a, b, c, d);
  }

  lemma FourPartsAreThreeColons(s: string)
    ensures HasFourParts(s) <==> Colons(s) == 3
  {
    if HasFourParts(s) {
      var a, b, c, d :| FourParts(s, a, b, c, d);
      ColonsOfParts(s, a, b, c, d);
    }
    if Colons(s) == 3 {
      CutInFour(s);
    }
  }

  /** What the classes mean. */
  lemma KindOfPriority(rule: Json, kind: int)
    requires 0 <= kind <= 4
    ensures UpTo(kind, rule) <==> Priority(rule) < kind
  {
    if rule.Obj? && "marktag" in rule.fields && rule.fields["marktag"].Str? {
      FourPartsAreThreeColons(rule.fields["marktag"].text);
    }
  }

  lemma AheadOf(r: Json, x: Json)
    ensures Priority(r) <= Priority(x) <==> forall kind :: 0 <= kind <= 4 && UpTo(kind, x) ==> UpTo(kind, r)
  {
    forall kind | 0 <= kind <= 4
      ensures (UpTo(kind, x) <==> Priority(x) < kind) && (UpTo(kind, r) <==> Priority(r) < kind)
    {
      KindOfPriority(x, kind);
      KindOfPriority(r, kind);
    }
    var kind := Priority(x) + 1;
    if kind <= 4 {
      assert UpTo(kind, x);
    }
  }

  /** Sorted by class is in order. */
  lemma SortedIsInOrder(rules: seq<Json>)
    ensures Sorted(rules) <==> InOrder(rules)
  {
    forall i, j | 0 <= i < j < |rules|
      ensures Priority(rules[i]) <= Priority(rules[j]) <==>
              forall kind :: 0 <= kind <= 4 && UpTo(kind, rules[j]) ==> UpTo(kind, rules[i])
    {
      AheadOf(rules[i], rules[j]);
    }
  }

  // ---------- add_rule

  /** Where add_rule puts a rule: before the first object of its class or a later one. */
  function InsertAt(rules: seq<Json>, p: int, i: nat): (at: nat)
    requires i <= |rules|
    ensures i <= at <= |rules|
    ensures forall k :: i <= k < at ==> !rules[k].Obj? || Priority(rules[k]) < p
    ensures at < |rules| ==> rules[at].Obj? && Priority(rules[at]) >= p
    decreases |rules| - i
  {
    if i == |rules| || (rules[i].Obj? && Priority(rules[i]) >= p) then i else InsertAt(rules, p, i + 1)
  }

  function Added(rules: seq<Json>, rule: Json): seq<Json> {
    var at := InsertAt(rules, Priority(rule), 0);
    rules[..at] + [rule] + rules[at..]
  }

  /** Among objects, a rule is added where the order wants it. */
  lemma AddKeepsOrder(rules: seq<Json>, rule: Json)
    requires InOrder(rules) && rule.Obj? && forall i :: 0 <= i < |rules| ==> rules[i].Obj?
    ensures InOrder(Added(rules, rule))
  {
    SortedIsInOrder(rules);
    AddedIsSorted(rules, rule);
    SortedIsInOrder(Added(rules, rule));
  }

  method AddRule(rules: seq<Json>, rule: Json) returns (r: seq<Json>)
    ensures r == Added(rules, rule)
    ensures InOrder(rules) && rule.Obj? && (forall i :: 0 <= i < |rules| ==> rules[i].Obj?) ==> InOrder(r)
  {
    if InOrder(rules) && rule.Obj? && forall i :: 0 <= i < |rules| ==> rules[i].Obj? {
      AddKeepsOrder(rules, rule);
    }
    var newP := Priority(rule);
    var insertAt := |rules|;
    for i := 0 to |rules|
      invariant insertAt == |rules|
      invariant InsertAt(rules, newP, 0) == InsertAt(rules, newP, i)
    {
      if rules[i].Obj? && Priority(rules[i]) >= newP {
        insertAt := i;
        break;
      }
    }
    assert insertAt == InsertAt(rules, newP, 0);
    Regroup(rules[..insertAt], [rule], rules[insertAt..]);
    r := rules[..insertAt] + ([rule] + rules[insertAt..]);
  }

  /** No rule that is not an object stands where the new rule belongs. */
  predicate PlainSpot(rules: seq<Json>, p: int) {
    forall k :: 0 <= k < |rules| && !rules[k].Obj? && Priority(rules[k]) >= p ==>
      exists j :: 0 <= j < k && rules[j].Obj? && Priority(rules[j]) >= p
  }

  /** Adding a rule to a sorted list is the same as sorting it in from the front, unless a rule that is not
      an object stands at the spot. */
  lemma AddRuleIsStableSort(rules: seq<Json>, rule: Json)
    requires Sorted(rules) && rule.Obj?
    ensures Added(rules, rule) == StableSort([rule] + rules) <==> PlainSpot(rules, Priority(rule))
  {
    var p := Priority(rule);
    var at := InsertAt(rules, p, 0);
    if PlainSpot(rules, p) {
      forall k | 0 <= k < at
        ensures Priority(rules[k]) < p
      {
      }
      InsertedIsSorted(rules, rule, at);
    } else {
      var k :| 0 <= k < |rules| && !rules[k].Obj? && Priority(rules[k]) >= p &&
               forall j :: 0 <= j < k ==> !(rules[j].Obj? && Priority(rules[j]) >= p);
      assert k < at;
      var first := FirstAtLeast(rules, p, k);
      InsertedIsSorted(rules, rule, first);
      var right := rules[..first] + [rule] + rules[first..];
      assert right[first] == rule && Added(rules, rule)[first] == rules[first];
    }
  }

  lemma FirstAtLeast(rules: seq<Json>, p: int, k: nat) returns (first: nat)
    requires k < |rules| && Priority(rules[k]) >= p
    requires forall j :: 0 <= j <= k ==> !rules[j].Obj? || Priority(rules[j]) < p
    ensures first <= k && !rules[first].Obj? && Priority(rules[first]) >= p
    ensures forall j :: 0 <= j < first ==> Priority(rules[j]) < p
  {
    first := 0;
    while Priority(rules[first]) < p
      invariant first <= k
      invariant forall j :: 0 <= j < first ==> Priority(rules[j]) < p
      decreases k - first
    {
      first := first + 1;
    }
  }

  lemma InsertedIsSorted(rules: seq<Json>, rule: Json, at: nat)
    requires Sorted(rules) && at <= |rules|
    requires forall k :: 0 <= k < at ==> Priority(rules[k]) < Priority(rule)
    requires at < |rules| ==> Priority(rules[at]) >= Priority(rule)
    ensures rules[..at] + [rule] + rules[at..] == StableSort([rule] + rules)
  {
    var front, back := rules[..at], rules[at..];
    var xs := front + [rule] + back;
    assert Sorted(xs);
    forall q | -1 <= q <= 4
      ensures Class(xs, q) == Class([rule] + rules, q)
    {
      assert rules == front + back;
      InsertedClass(front, rule, back, q);
    }
    SortIsUnique([rule] + rules, xs);
  }

  lemma InsertedClass(front: seq<Json>, rule: Json, back: seq<Json>, q: int)
    requires forall r :: r in front ==> Priority(r) < Priority(rule)
    ensures Class(front + [rule] + back, q) == Class([rule] + (front + back), q)
  {
    ClassAppend(front + [rule], back, q);
    ClassAppend(front, [rule], q);
    ClassAppend([rule], front + back, q);
    ClassAppend(front, back, q);
    if q == Priority(rule) {
      FilterDropsAll(front, InClass(q));
      assert Class(front, q) == [];
    } else {
      FilterDropsAll([rule], InClass(q));
      assert Class([rule], q) == [];
    }
  }

  /** A class after a rule was added: the new one stands behind nothing but entries that are not objects. */
  lemma AddedClass(rules: seq<Json>, rule: Json, q: int)
    requires rule.Obj?
    ensures var at := InsertAt(rules, Priority(rule), 0);
            && Class(rules, q) == Class(rules[..at], q) + Class(rules[at..], q)
            && (q != Priority(rule) ==> Class(Added(rules, rule), q) == Class(rules, q))
            && (q == Priority(rule) ==>
                  && Class(Added(rules, rule), q) == Class(rules[..at], q) + [rule] + Class(rules[at..], q)
                  && forall x :: x in Class(rules[..at], q) ==> !x.Obj?)
  {
    var at := InsertAt(rules, Priority(rule), 0);
    var front, back := rules[..at], rules[at..];
    assert rules == front + back;
    ClassAppend(front, back, q);
    ClassAppend(front + [rule], back, q);
    FilterSnoc(front, rule, InClass(q));
    ClassMembers(front, q);
    assert Class(front, q) + [] == Class(front, q);
  }

  /** Only an entry that is not an object can have put the new rule in the wrong place, and not within the last class,
      to which such entries belong. */
  lemma AddedIsSorted(rules: seq<Json>, rule: Json)
    requires Sorted(rules) && rule.Obj?
    ensures Sorted(Added(rules, rule)) <==> Priority(rule) == 4 || PlainSpot(rules, Priority(rule))
  {
    var p := Priority(rule);
    var at := InsertAt(rules, p, 0);
    var now := Added(rules, rule);
    assert now[at] == rule;
    if p == 4 || PlainSpot(rules, p) {
      InsertedKeepsSorted(rules, rule, at);
    } else {
      var k :| 0 <= k < |rules| && !rules[k].Obj? && Priority(rules[k]) >= p &&
               forall j :: 0 <= j < k ==> !(rules[j].Obj? && Priority(rules[j]) >= p);
      assert k < at && now[k] == rules[k];
    }
  }

  lemma InsertedKeepsSorted(rules: seq<Json>, rule: Json, at: nat)
    requires Sorted(rules) && at <= |rules|
    requires forall k :: 0 <= k < at ==> Priority(rules[k]) <= Priority(rule)
    requires at < |rules| ==> Priority(rules[at]) >= Priority(rule)
    ensures Sorted(rules[..at] + [rule] + rules[at..])
  {
  }
}
