/** Merging the built-in template into an existing Xray configuration, as every agent start does. */
module ConfigMerge {
  import opened Filters
  import opened Json
  import opened RoutingRules

  // ---------- Arrays of tagged objects

  predicate IsTagged(item: Json) {
    item.Obj? && Tag(item.fields) != ""
  }

  function TagsOf(items: seq<Json>): (tags: set<string>) {
    set item | item in items && IsTagged(item) :: Tag(item.fields)
  }

  /** An existing entry is kept unless the template has an object of the same tag. */
  function Unclaimed(tags: set<string>): Json -> bool {
    (item: Json) => !(IsTagged(item) && Tag(item.fields) in tags)
  }

  function MergedArray(existing: Json, template: Json): Json {
    Arr(Items(template) + Filter(Items(existing), Unclaimed(TagsOf(Items(template)))))
  }

  method AppendUnclaimed(existing: seq<Json>, template: seq<Json>, tplTags: set<string>) returns (merged: seq<Json>)
    ensures merged == template + Filter(existing, Unclaimed(tplTags))
  {
    merged := template;
    for i := 0 to |existing|
      invariant merged == template + Filter(existing[..i], Unclaimed(tplTags))
    {
      var item := existing[i];
      FilterNext(existing, i, Unclaimed(tplTags));
      if !item.Obj? {
        merged := merged + [item];
        continue;
      }
      var tag := Tag(item.fields);
      if tag != "" && tag in tplTags {
        continue;
      }
      merged := merged + [item];
    }
    assert existing[..|existing|] == existing;
  }

  method CollectTags(template: seq<Json>) returns (tplTags: set<string>)
    ensures tplTags == TagsOf(template)
  {
    tplTags := {};
    for i := 0 to |template|
      invariant tplTags == TagsOf(template[..i])
    {
      var item := template[i];
      assert template[..i + 1] == template[..i] + [item];
      if item.Obj? && Tag(item.fields) != "" {
        tplTags := tplTags + {Tag(item.fields)};
      }
    }
    assert template[..|template|] == template;
  }

  method MergeTaggedArray(existingRaw: Json, templateRaw: Json) returns (r: Json)
    ensures r == MergedArray(existingRaw, templateRaw)
  {
    var existing, template := Items(existingRaw), Items(templateRaw);
    var tplTags := CollectTags(template);
    var merged := AppendUnclaimed(existing, template, tplTags);
    r := Arr(merged);
  }

  predicate AllTagged(items: seq<Json>) {
    forall item :: item in items ==> IsTagged(item)
  }

  /** What the template has it claims, so merging again changes nothing: exactly if all its entries are tagged
      objects. Any other entry is added once more by every merge. */
  lemma ArrayMergeIsStable(e: Json, t: Json)
    ensures MergedArray(MergedArray(e, t), t) == MergedArray(e, t) <==> AllTagged(Items(t))
  {
    FilterOnto(Items(t), Items(e), Unclaimed(TagsOf(Items(t))));
    TemplateIsClaimed(Items(t));
  }

  /** An object of the template has the tag of this item. */
  predicate SameTagIn(ts: seq<Json>, item: Json) {
    TagOf(item) != "" && exists x :: x in ts && TagOf(x) == TagOf(item)
  }

  /** Which entries a merged array has: all of the template's, and of the user's exactly those whose tag the template does
      not have. */
  lemma ArrayMergeExactly(e: Json, t: Json, item: Json)
    ensures item in MergedArray(e, t).items <==> item in Items(t) || (item in Items(e) && !SameTagIn(Items(t), item))
    ensures Items(t) <= MergedArray(e, t).items
  {
    var tags := TagsOf(Items(t));
    FilterMembers(Items(e), Unclaimed(tags));
    if SameTagIn(Items(t), item) {
      var x :| x in Items(t) && TagOf(x) == TagOf(item);
      assert IsTagged(x) && Tag(x.fields) in tags;
    }
  }

  lemma TemplateIsClaimed(ts: seq<Json>)
    ensures Filter(ts, Unclaimed(TagsOf(ts))) == [] <==> AllTagged(ts)
  {
    FilterDropsAll(ts, Unclaimed(TagsOf(ts)));
    assert forall item :: item in ts && IsTagged(item) ==> Tag(item.fields) in TagsOf(ts);
  }

  /** Nothing of the user's is lost: an existing entry is in the result if the template does not claim its tag. */
  lemma ArrayMergeKeepsEntries(e: Json, t: Json, item: Json)
    requires item in Items(e) && !(IsTagged(item) && Tag(item.fields) in TagsOf(Items(t)))
    ensures item in MergedArray(e, t).items
  {
    FilterMembers(Items(e), Unclaimed(TagsOf(Items(t))));
  }

  // ---------- Routing

  const SIGNATURE_KEYS: seq<string> := ["type", "outboundTag", "balancerTag", "inboundTag", "ip", "domain", "user",
                                        "protocol", "network", "source", "port", "sourcePort", "marktag"]

  function PrintAll(sprint: Printer, items: seq<Json>): (r: seq<string>)
    ensures |r| == |items|
  {
    if items == [] then [] else [sprint(items[0])] + PrintAll(sprint, items[1..])
  }

  function JoinWith(parts: seq<string>, separator: string): string {
    if parts == [] then ""
    else if |parts| == 1 then parts[0]
    else parts[0] + separator + JoinWith(parts[1..], separator)
  }

  /** How one field enters a signature; an array enters with its printed items sorted. */
  function Part(sprint: Printer, fields: map<string, Json>, k: string): seq<string> {
    var v := Field(fields, k);
    if v.Null? then []
    else if v.Arr? then [k + ":[" + JoinWith(SortStrings(PrintAll(sprint, v.items)), ",") + "]"]
    else [k + ":" + sprint(v)]
  }

  function Parts(sprint: Printer, fields: map<string, Json>, n: nat): seq<string>
    requires n <= |SIGNATURE_KEYS|
  {
    if n == 0 then [] else Parts(sprint, fields, n - 1) + Part(sprint, fields, SIGNATURE_KEYS[n - 1])
  }

  /** routingRuleSignature */
  function Signature(sprint: Printer, rule: Json): string {
    if rule.Obj? then JoinWith(Parts(sprint, rule.fields, |SIGNATURE_KEYS|), "|") else ""
  }

  /** Two rules that differ at most in the order of arrays. */
  ghost predicate SameUpToOrder(a: Json, b: Json) {
    a.Obj? && b.Obj? &&
    forall i :: 0 <= i < |SIGNATURE_KEYS| ==>
      var v, w := Field(a.fields, SIGNATURE_KEYS[i]), Field(b.fields, SIGNATURE_KEYS[i]);
      v == w || (v.Arr? && w.Arr? && multiset(v.items) == multiset(w.items))
  }

  lemma {:induction false} PartsSameUpToOrder(sprint: Printer, a: Json, b: Json, n: nat)
    requires SameUpToOrder(a, b) && n <= |SIGNATURE_KEYS|
    ensures Parts(sprint, a.fields, n) == Parts(sprint, b.fields, n)
  {
    if n > 0 {
      PartsSameUpToOrder(sprint, a, b, n - 1);
      var v, w := Field(a.fields, SIGNATURE_KEYS[n - 1]), Field(b.fields, SIGNATURE_KEYS[n - 1]);
      if v != w {
        SortPrinted(sprint, v.items, w.items);
      }
    }
  }

  /** Such rules have the same signature. */
  lemma SignatureIgnoresOrder(sprint: Printer, a: Json, b: Json)
    requires SameUpToOrder(a, b)
    ensures Signature(sprint, a) == Signature(sprint, b)
  {
    PartsSameUpToOrder(sprint, a, b, |SIGNATURE_KEYS|);
  }

  function Marktag(rule: Json): string {
    if rule.Obj? then StringField(rule.fields, "marktag") else ""
  }

  function MarktagsOf(rules: seq<Json>): set<string> {
    set r | r in rules && Marktag(r) != "" :: Marktag(r)
  }

  function SignaturesOf(sprint: Printer, rules: seq<Json>): set<string> {
    set r | r in rules :: Signature(sprint, r)
  }

  /** An existing rule is kept unless the template has its marktag or its signature. What is not an
      object is kept in any case. */
  function UnclaimedRule(sprint: Printer, marktags: set<string>, signatures: set<string>): Json -> bool {
    (r: Json) => !(r.Obj? && ((Marktag(r) != "" && Marktag(r) in marktags) || Signature(sprint, r) in signatures))
  }

  function KeptBy(sprint: Printer, template: seq<Json>): Json -> bool {
    UnclaimedRule(sprint, MarktagsOf(template), SignaturesOf(sprint, template))
  }

  function MergedRules(sprint: Printer, existing: seq<Json>, template: seq<Json>): seq<Json> {
    StableSort(template + Filter(existing, KeptBy(sprint, template)))
  }

  /** Does the rule share a marktag or the signature with one of the template's? */
  predicate Collides(sprint: Printer, ts: seq<Json>, r: Json) {
    exists x :: x in ts && (Signature(sprint, r) == Signature(sprint, x) || (Marktag(r) != "" && Marktag(r) == Marktag(x)))
  }

  lemma ClaimedIsCollision(sprint: Printer, ts: seq<Json>, r: Json)
    ensures KeptBy(sprint, ts)(r) <==> !(r.Obj? && Collides(sprint, ts, r))
  {
    var signatures, marktags := SignaturesOf(sprint, ts), MarktagsOf(ts);
    if Signature(sprint, r) in signatures {
      var x :| x in ts && Signature(sprint, x) == Signature(sprint, r);
      assert Collides(sprint, ts, r);
    }
    if Marktag(r) in marktags {
      var x :| x in ts && Marktag(x) == Marktag(r);
      assert Collides(sprint, ts, r);
    }
    if Collides(sprint, ts, r) {
      var x :| x in ts && (Signature(sprint, r) == Signature(sprint, x) || (Marktag(r) != "" && Marktag(r) == Marktag(x)));
      assert Signature(sprint, x) in signatures;
      assert Marktag(x) != "" ==> Marktag(x) in marktags;
    }
  }

  /** Whether a rule is in the result: the template's are, and of the user's exactly those that share neither a marktag
      nor the signature with a rule of the template. */
  lemma RuleSurvivesExactly(sprint: Printer, es: seq<Json>, ts: seq<Json>, r: Json)
    ensures r in MergedRules(sprint, es, ts) <==>
            r in ts || (r in es && !(r.Obj? && Collides(sprint, ts, r)))
  {
    var rules := ts + Filter(es, KeptBy(sprint, ts));
    SortPermutes(rules);
    assert r in MergedRules(sprint, es, ts) <==> r in multiset(rules);
    FilterMembers(es, KeptBy(sprint, ts));
    ClaimedIsCollision(sprint, ts, r);
  }

  /** The signature reads 13 keys. So a user's rule that differs from a template's rule only under other keys is lost. */
  lemma OtherKeysAreIgnored(sprint: Printer, es: seq<Json>, ts: seq<Json>, x: Json, r: Json)
    requires x in ts && SameUpToOrder(r, x)
    ensures r in MergedRules(sprint, es, ts) <==> r in ts
  {
    SignatureIgnoresOrder(sprint, r, x);
    assert Collides(sprint, ts, r);
    RuleSurvivesExactly(sprint, es, ts, r);
  }

  lemma {:induction false} OnlyDomain(sprint: Printer, fields: map<string, Json>, n: nat)
    requires fields.Keys == {"domain"} && n <= |SIGNATURE_KEYS|
    ensures Parts(sprint, fields, n) == if n > 5 then Part(sprint, fields, "domain") else []
  {
    if n > 0 {
      OnlyDomain(sprint, fields, n - 1);
      DomainIsSixth(n - 1);
      assert Part(sprint, fields, SIGNATURE_KEYS[n - 1]) == if n - 1 == 5 then Part(sprint, fields, "domain") else [];
    }
  }

  lemma DomainIsSixth(i: nat)
    requires i < |SIGNATURE_KEYS|
    ensures SIGNATURE_KEYS[i] == "domain" <==> i == 5
  {
  }

  lemma DomainSignature(sprint: Printer, items: seq<Json>)
    ensures Signature(sprint, Obj(map["domain" := Arr(items)])) ==
            "domain:[" + JoinWith(SortStrings(PrintAll(sprint, items)), ",") + "]"
  {
    var fields := map["domain" := Arr(items)];
    OnlyDomain(sprint, fields, |SIGNATURE_KEYS|);
    assert "domain" + ":[" == "domain:[";
  }

  /** The same holds of a rule whose printed lists only read alike: ["a,b"] and ["a", "b"]. */
  lemma CommaHidesRule(sprint: Printer, es: seq<Json>)
    requires forall s :: sprint(Str(s)) == s
    ensures var x := Obj(map["domain" := Arr([Str("a"), Str("b")])]);
            var r := Obj(map["domain" := Arr([Str("a,b")])]);
            r !in MergedRules(sprint, es, [x])
  {
    var x := Obj(map["domain" := Arr([Str("a"), Str("b")])]);
    var r := Obj(map["domain" := Arr([Str("a,b")])]);
    DomainSignature(sprint, [Str("a"), Str("b")]);
    DomainSignature(sprint, [Str("a,b")]);
    assert PrintAll(sprint, [Str("a,b")]) == ["a,b"];
    assert SortStrings(PrintAll(sprint, [Str("a"), Str("b")])) == ["a", "b"];
    assert JoinWith(["a", "b"], ",") == "a,b";
    assert r.fields["domain"].items[0] != x.fields["domain"].items[0];
    assert Collides(sprint, [x], r);
    RuleSurvivesExactly(sprint, es, [x], r);
  }

  function RulesOf(routing: map<string, Json>): seq<Json> {
    Items(Field(routing, "rules"))
  }

  function MergedRouting(sprint: Printer, e: Json, t: Json): Json {
    if !t.Obj? then (if e.Obj? then e else Null)
    else if !e.Obj? then t
    else
      var rules := MergedRules(sprint, RulesOf(e.fields), RulesOf(t.fields));
      Obj((e.fields + t.fields)["rules" := Arr(rules)])
  }

  lemma MarktagsSnoc(rules: seq<Json>, r: Json)
    ensures MarktagsOf(rules + [r]) == MarktagsOf(rules) + (if Marktag(r) != "" then {Marktag(r)} else {})
  {
    assert r in rules + [r];
    assert forall x :: x in rules + [r] <==> x in rules || x == r;
  }

  lemma ClaimsNext(sprint: Printer, rules: seq<Json>, i: nat)
    requires i < |rules|
    ensures MarktagsOf(rules[..i + 1]) ==
            MarktagsOf(rules[..i]) + (if Marktag(rules[i]) != "" then {Marktag(rules[i])} else {})
    ensures SignaturesOf(sprint, rules[..i + 1]) == SignaturesOf(sprint, rules[..i]) + {Signature(sprint, rules[i])}
  {
    assert rules[..i + 1] == rules[..i] + [rules[i]];
    MarktagsSnoc(rules[..i], rules[i]);
    SignaturesSnoc(sprint, rules[..i], rules[i]);
  }

  method CollectClaims(sprint: Printer, templateRules: seq<Json>)
    returns (tplMarktags: set<string>, tplSignatures: set<string>)
    ensures tplMarktags == MarktagsOf(templateRules)
    ensures tplSignatures == SignaturesOf(sprint, templateRules)
  {
    tplMarktags, tplSignatures := {}, {};
    for i := 0 to |templateRules|
      invariant tplMarktags == MarktagsOf(templateRules[..i])
      invariant tplSignatures == SignaturesOf(sprint, templateRules[..i])
    {
      var r := templateRules[i];
      ClaimsNext(sprint, templateRules, i);
      if r.Obj? {
        var m := StringField(r.fields, "marktag");
        if m != "" {
          tplMarktags := tplMarktags + {m};
        }
      }
      tplSignatures := tplSignatures + {Signature(sprint, r)};
    }
    assert templateRules[..|templateRules|] == templateRules;
  }

  /** The merged rules come in the order that the router needs. */
  lemma MergeIsInOrder(sprint: Printer, es: seq<Json>, ts: seq<Json>)
    ensures InOrder(MergedRules(sprint, es, ts))
  {
    var rules := ts + Filter(es, KeptBy(sprint, ts));
    ClassesSorted(rules, -1);
    SortedIsInOrder(StableSort(rules));
  }

  /** A port forward of the user's comes ahead of a template rule that catches everything, and so is reached. */
  lemma ForwardIsAhead(sprint: Printer, es: seq<Json>, ts: seq<Json>, i: nat, j: nat)
    requires var rules := MergedRules(sprint, es, ts);
             && i < |rules| && j < |rules| && Forwards(rules[i])
             && !ToNginx(rules[j]) && !Forwards(rules[j])
    ensures i < j
  {
    MergeIsInOrder(sprint, es, ts);
    var rules := MergedRules(sprint, es, ts);
    assert UpTo(1, rules[i]) && !UpTo(1, rules[j]);
  }

  /** The two passes over the rules. */
  method MergeRules(sprint: Printer, existingRules: seq<Json>, templateRules: seq<Json>) returns (rules: seq<Json>)
    ensures rules == MergedRules(sprint, existingRules, templateRules)
    ensures InOrder(rules)
  {
    MergeIsInOrder(sprint, existingRules, templateRules);
    var tplMarktags, tplSignatures := CollectClaims(sprint, templateRules);
    rules := KeepRules(sprint, existingRules, templateRules, tplMarktags, tplSignatures);
    rules := StableSort(rules);
  }

  method KeepRules(sprint: Printer, existingRules: seq<Json>, templateRules: seq<Json>,
                   tplMarktags: set<string>, tplSignatures: set<string>) returns (rules: seq<Json>)
    ensures rules == templateRules + Filter(existingRules, UnclaimedRule(sprint, tplMarktags, tplSignatures))
  {
    rules := templateRules;
    for i := 0 to |existingRules|
      invariant rules == templateRules + Filter(existingRules[..i], UnclaimedRule(sprint, tplMarktags, tplSignatures))
    {
      var r := existingRules[i];
      FilterNext(existingRules, i, UnclaimedRule(sprint, tplMarktags, tplSignatures));
      if !r.Obj? {
        rules := rules + [r];
        continue;
      }
      var m := StringField(r.fields, "marktag");
      if m != "" && m in tplMarktags {
        continue;
      }
      if Signature(sprint, r) in tplSignatures {
        continue;
      }
      rules := rules + [r];
    }
    assert existingRules[..|existingRules|] == existingRules;
  }

  lemma SignaturesSnoc(sprint: Printer, rules: seq<Json>, r: Json)
    ensures SignaturesOf(sprint, rules + [r]) == SignaturesOf(sprint, rules) + {Signature(sprint, r)}
  {
    assert r in rules + [r];
    assert forall x :: x in rules + [r] <==> x in rules || x == r;
  }

  /** A map after some of its keys have been overwritten. */
  function Overlaid(base: map<string, Json>, over: map<string, Json>, keys: set<string>): map<string, Json>
    requires keys <= over.Keys
  {
    map k | k in base.Keys + keys :: if k in keys then over[k] else base[k]
  }

  lemma OverlayOne(base: map<string, Json>, over: map<string, Json>, keys: set<string>, k: string)
    requires keys <= over.Keys && k in over
    ensures Overlaid(base, over, keys + {k}) == Overlaid(base, over, keys)[k := over[k]]
  {
  }

  method OverlayFields(existing: map<string, Json>, template: map<string, Json>) returns (merged: map<string, Json>)
    ensures merged == Overlaid(existing, template, template.Keys - {"rules"})
  {
    merged := existing;
    var keys := template.Keys;
    ghost var done := {};
    while keys != {}
      invariant keys + done == template.Keys && keys !! done
      invariant merged == Overlaid(existing, template, done - {"rules"})
      decreases keys
    {
      var k :| k in keys;
      if k != "rules" {
        OverlayOne(existing, template, done - {"rules"}, k);
        assert done - {"rules"} + {k} == done + {k} - {"rules"};
        merged := merged[k := template[k]];
      } else {
        assert done - {"rules"} == done + {k} - {"rules"};
      }
      keys, done := keys - {k}, done + {k};
    }
  }

  lemma OverlaidButRules(base: map<string, Json>, over: map<string, Json>, rules: Json)
    ensures Overlaid(base, over, over.Keys - {"rules"})["rules" := rules] == (base + over)["rules" := rules]
  {
  }

  /** In a merged routing block the template's settings win, and settings that only one of the two has are kept. */
  lemma RoutingSettings(sprint: Printer, e: map<string, Json>, t: map<string, Json>)
    ensures var merged := MergedRouting(sprint, Obj(e), Obj(t));
            && merged.Obj? && merged.fields.Keys == e.Keys + t.Keys + {"rules"}
            && (forall k :: k in t && k != "rules" ==> merged.fields[k] == t[k])
            && (forall k :: k in e && k !in t && k != "rules" ==> merged.fields[k] == e[k])
            && merged.fields["rules"].Arr? && InOrder(merged.fields["rules"].items)
  {
    MergeIsInOrder(sprint, RulesOf(e), RulesOf(t));
  }

  method MergeRouting(sprint: Printer, existingRaw: Json, templateRaw: Json) returns (r: Json)
    ensures r == MergedRouting(sprint, existingRaw, templateRaw)
  {
    if !templateRaw.Obj? {
      return if existingRaw.Obj? then existingRaw else Null;
    }
    if !existingRaw.Obj? {
      return templateRaw;
    }
    var existing, template := existingRaw.fields, templateRaw.fields;
    var merged := OverlayFields(existing, template);
    var rules := MergeRules(sprint, RulesOf(existing), RulesOf(template));
    OverlaidButRules(existing, template, Arr(rules));
    merged := merged["rules" := Arr(rules)];
    return Obj(merged);
  }

  predicate AllObjects(rules: seq<Json>) {
    forall r :: r in rules ==> r.Obj?
  }

  lemma TemplateRulesAreClaimed(sprint: Printer, template: seq<Json>)
    ensures Filter(template, KeptBy(sprint, template)) == [] <==> AllObjects(template)
  {
    FilterDropsAll(template, KeptBy(sprint, template));
    assert forall r :: r in template ==> Signature(sprint, r) in SignaturesOf(sprint, template);
  }

  /** Merging the rules again sorts in, once more, the template's entries that are not objects. */
  lemma RemergedRules(sprint: Printer, es: seq<Json>, ts: seq<Json>)
    ensures var keep := KeptBy(sprint, ts);
            MergedRules(sprint, MergedRules(sprint, es, ts), ts) ==
            StableSort(ts + (Filter(ts, keep) + Filter(es, keep)))
  {
    var keep := KeptBy(sprint, ts);
    var us := Filter(es, keep);
    FilterClasses(ts + us, keep, -1);
    FilterAppend(ts, us, keep);
    FilterMembers(es, keep);
    FilterKeepsAll(us, keep);
    SortTail(ts, Filter(ts, keep) + us);
  }

  lemma RulesMergeIsStable(sprint: Printer, es: seq<Json>, ts: seq<Json>)
    ensures MergedRules(sprint, MergedRules(sprint, es, ts), ts) == MergedRules(sprint, es, ts) <==> AllObjects(ts)
  {
    var keep := KeptBy(sprint, ts);
    var us := Filter(es, keep);
    RemergedRules(sprint, es, ts);
    TemplateRulesAreClaimed(sprint, ts);
    if AllObjects(ts) {
      assert [] + us == us;
    } else {
      SortPermutes(ts + us);
      SortPermutes(ts + (Filter(ts, keep) + us));
    }
  }

  /** The user's rules survive a merge in their order, class by class, behind the template's. */
  lemma RulesSurvive(sprint: Printer, es: seq<Json>, ts: seq<Json>, p: int)
    requires -1 <= p <= 4
    ensures Class(MergedRules(sprint, es, ts), p) == Class(ts, p) + Filter(Class(es, p), KeptBy(sprint, ts))
    ensures Sorted(MergedRules(sprint, es, ts))
  {
    var us := Filter(es, KeptBy(sprint, ts));
    ClassOfClasses(ts + us, -1, p);
    ClassAppend(ts, us, p);
    FilterClass(es, KeptBy(sprint, ts), p);
    ClassesSorted(ts + us, -1);
  }

  // ---------- A rule added at run time

  /** What the user keeps of a merge result: nothing of the template's, if that has only objects, and all of the rest. */
  lemma KeptOfMerge(sprint: Printer, es: seq<Json>, ts: seq<Json>, q: int)
    requires -1 <= q <= 4 && AllObjects(ts)
    ensures var keep := KeptBy(sprint, ts);
            Filter(Class(MergedRules(sprint, es, ts), q), keep) == Filter(Class(es, q), keep)
  {
    var keep := KeptBy(sprint, ts);
    var us := Filter(Class(es, q), keep);
    RulesSurvive(sprint, es, ts, q);
    FilterAppend(Class(ts, q), us, keep);
    TemplateRulesAreClaimed(sprint, ts);
    FilterClass(ts, keep, q);
    FilterMembers(Class(es, q), keep);
    FilterKeepsAll(us, keep);
    assert [] + us == us;
  }

  /** The other classes of the running rules stay as they are. */
  lemma RestartOtherClass(sprint: Printer, es: seq<Json>, ts: seq<Json>, r: Json, q: int)
    requires -1 <= q <= 4 && AllObjects(ts) && r.Obj? && q != Priority(r)
    ensures var running := Added(MergedRules(sprint, es, ts), r);
            Class(MergedRules(sprint, running, ts), q) == Class(running, q)
  {
    var merged := MergedRules(sprint, es, ts);
    AddedClass(merged, r, q);
    RulesSurvive(sprint, Added(merged, r), ts, q);
    RulesSurvive(sprint, es, ts, q);
    KeptOfMerge(sprint, es, ts, q);
  }

  /** One class into which r has been put behind entries that are not objects, and what a restart makes of it. */
  lemma RestartList(keep: Json -> bool, ts: seq<Json>, us: seq<Json>, a: seq<Json>, r: Json, b: seq<Json>)
    requires a + b == ts + us && Filter(ts, keep) == [] && Filter(us, keep) == us
    requires (forall x :: x in a ==> !x.Obj?) && (forall x :: x in ts ==> x.Obj?)
    ensures ts + Filter(a + [r] + b, keep) == a + [r] + b <==> keep(r) && ts == []
  {
    if !keep(r) {
      ClaimedShrinks(keep, ts, us, a, r, b);
    } else if ts == [] {
      AllStay(keep, us, a, r, b);
    } else {
      NothingBefore(ts, us, a, b);
      FilterDropsAll(ts, keep);
      assert ts[0] in ts && (a + [r] + b)[0] == r;
    }
  }

  lemma ClaimedShrinks(keep: Json -> bool, ts: seq<Json>, us: seq<Json>, a: seq<Json>, r: Json, b: seq<Json>)
    requires a + b == ts + us && Filter(ts, keep) == [] && Filter(us, keep) == us && !keep(r)
    ensures |ts + Filter(a + [r] + b, keep)| < |a + [r] + b|
  {
    FilterAppend(a + [r], b, keep);
    FilterSnoc(a, r, keep);
    FilterAppend(a, b, keep);
    FilterAppend(ts, us, keep);
    assert |a| + |b| == |ts| + |us|;
  }

  lemma AllStay(keep: Json -> bool, us: seq<Json>, a: seq<Json>, r: Json, b: seq<Json>)
    requires a + b == us && Filter(us, keep) == us && keep(r)
    ensures [] + Filter(a + [r] + b, keep) == a + [r] + b
  {
    FilterMembers(us, keep);
    forall x | x in a + [r] + b
      ensures keep(x)
    {
      assert x in us || x == r;
    }
    FilterKeepsAll(a + [r] + b, keep);
  }

  lemma HeadOf(a: seq<Json>, b: seq<Json>)
    ensures a != [] ==> (a + b)[0] in a
  {
  }

  lemma NothingBefore(ts: seq<Json>, us: seq<Json>, a: seq<Json>, b: seq<Json>)
    requires a + b == ts + us && ts != []
    requires (forall x :: x in a ==> !x.Obj?) && (forall x :: x in ts ==> x.Obj?)
    ensures a == []
  {
    HeadOf(a, b);
    assert ts[0] in ts && (ts + us)[0] == ts[0];
  }

  lemma RestartOwnClass(sprint: Printer, es: seq<Json>, ts: seq<Json>, r: Json)
    requires AllObjects(ts) && r.Obj?
    ensures var running, p := Added(MergedRules(sprint, es, ts), r), Priority(r);
            Class(MergedRules(sprint, running, ts), p) == Class(running, p) <==> KeptBy(sprint, ts)(r) && Class(ts, p) == []
  {
    var merged, p, keep := MergedRules(sprint, es, ts), Priority(r), KeptBy(sprint, ts);
    var at := InsertAt(merged, p, 0);
    AddedClass(merged, r, p);
    RulesSurvive(sprint, Added(merged, r), ts, p);
    RulesSurvive(sprint, es, ts, p);
    TemplateRulesAreClaimed(sprint, ts);
    FilterClass(ts, keep, p);
    FilterMembers(Class(es, p), keep);
    FilterKeepsAll(Filter(Class(es, p), keep), keep);
    ClassMembers(ts, p);
    RestartList(keep, Class(ts, p), Filter(Class(es, p), keep), Class(merged[..at], p), r, Class(merged[at..], p));
  }

  /** An entry of the template that is not an object comes once more. */
  lemma RestartAddsAgain(sprint: Printer, ts: seq<Json>, running: seq<Json>)
    requires !AllObjects(ts)
    ensures MergedRules(sprint, running, ts) != running
  {
    var n :| n in ts && !n.Obj?;
    var kept := Filter(running, KeptBy(sprint, ts));
    SortPermutes(ts + kept);
    KeptCount(running, KeptBy(sprint, ts), n);
    assert n in multiset(ts);
  }

  lemma {:induction false} KeptCount(rules: seq<Json>, keep: Json -> bool, n: Json)
    requires keep(n)
    ensures multiset(Filter(rules, keep))[n] == multiset(rules)[n]
  {
    if rules != [] {
      KeptCount(rules[..|rules| - 1], keep, n);
      assert rules == rules[..|rules| - 1] + [rules[|rules| - 1]];
    }
  }

  /** A rule added at run time goes in front of its class; a restart puts it behind the template's rules of that class,
      or drops it if the template claims it. So a restart keeps the running rules exactly if the template has only objects,
      does not claim the new rule and has no rule of its class, and the rule has not been put behind an entry that is not an
      object and belongs to a later class. */
  lemma RestartKeepsAddedRule(sprint: Printer, es: seq<Json>, ts: seq<Json>, r: Json)
    requires r.Obj?
    ensures var merged, p := MergedRules(sprint, es, ts), Priority(r);
            var running := Added(merged, r);
            MergedRules(sprint, running, ts) == running <==>
            AllObjects(ts) && !Collides(sprint, ts, r) && Class(ts, p) == [] && (p == 4 || PlainSpot(merged, p))
  {
    var merged := MergedRules(sprint, es, ts);
    var running := Added(merged, r);
    ClaimedIsCollision(sprint, ts, r);
    RulesSurvive(sprint, es, ts, 0);
    AddedIsSorted(merged, r);
    if AllObjects(ts) {
      RestartOwnClass(sprint, es, ts, r);
      RestartByClasses(sprint, es, ts, r);
    } else {
      RestartAddsAgain(sprint, ts, running);
    }
  }

  lemma RestartByClasses(sprint: Printer, es: seq<Json>, ts: seq<Json>, r: Json)
    requires AllObjects(ts) && r.Obj?
    ensures var running, p := Added(MergedRules(sprint, es, ts), r), Priority(r);
            MergedRules(sprint, running, ts) == running <==>
            Sorted(running) && Class(MergedRules(sprint, running, ts), p) == Class(running, p)
  {
    var running, p := Added(MergedRules(sprint, es, ts), r), Priority(r);
    var after := MergedRules(sprint, running, ts);
    RulesSurvive(sprint, running, ts, 0);
    if Sorted(running) && Class(after, p) == Class(running, p) {
      forall q | -1 <= q <= 4
        ensures Class(after, q) == Class(running, q)
      {
        if q != p {
          RestartOtherClass(sprint, es, ts, r, q);
        }
      }
      SortIsUnique(running, after);
      SortedIsClasses(running);
    }
  }

  /** When a second routing merge changes nothing. */
  predicate StableRouting(e: Json, t: Json) {
    t.Obj? ==>
      && AllObjects(RulesOf(t.fields))
      && (!e.Obj? ==> Field(t.fields, "rules").Arr? && Sorted(RulesOf(t.fields)))
  }

  lemma RulesAreSet(fields: map<string, Json>, xs: seq<Json>, ys: seq<Json>)
    ensures fields["rules" := Arr(xs)] == fields["rules" := Arr(ys)] <==> xs == ys
  {
    assert fields["rules" := Arr(xs)]["rules"] == Arr(xs) && fields["rules" := Arr(ys)]["rules"] == Arr(ys);
  }

  lemma FirstRoutingIsStable(sprint: Printer, t: Json)
    requires t.Obj?
    ensures MergedRouting(sprint, t, t) == t <==> StableRouting(Null, t)
  {
    var ts := RulesOf(t.fields);
    var r2 := MergedRules(sprint, ts, ts);
    assert t.fields + t.fields == t.fields;
    assert MergedRouting(sprint, t, t) == Obj(t.fields["rules" := Arr(r2)]);
    assert t.fields["rules" := Arr(r2)] == t.fields <==> Field(t.fields, "rules") == Arr(r2) by {
      assert t.fields["rules" := Arr(r2)]["rules"] == Arr(r2);
    }
    SameRulesAgain(sprint, ts);
  }

  lemma SameRulesAgain(sprint: Printer, ts: seq<Json>)
    ensures MergedRules(sprint, ts, ts) == ts <==> AllObjects(ts) && Sorted(ts)
  {
    var kept := Filter(ts, KeptBy(sprint, ts));
    TemplateRulesAreClaimed(sprint, ts);
    SortPermutes(ts + kept);
    ClassesSorted(ts + kept, -1);
    if AllObjects(ts) && Sorted(ts) {
      SortedIsClasses(ts);
      assert ts + [] == ts;
    }
  }

  lemma RoutingMergeIsStable(sprint: Printer, e: Json, t: Json)
    ensures MergedRouting(sprint, MergedRouting(sprint, e, t), t) == MergedRouting(sprint, e, t) <==> StableRouting(e, t)
  {
    if t.Obj? {
      var ts := RulesOf(t.fields);
      if e.Obj? {
        var r1 := MergedRules(sprint, RulesOf(e.fields), ts);
        var r2 := MergedRules(sprint, r1, ts);
        var both := e.fields + t.fields;
        RulesMergeIsStable(sprint, RulesOf(e.fields), ts);
        assert (both["rules" := Arr(r1)] + t.fields)["rules" := Arr(r2)] == both["rules" := Arr(r2)];
        RulesAreSet(both, r1, r2);
      } else {
        FirstRoutingIsStable(sprint, t);
      }
    }
  }

  // ---------- The whole configuration

  function MergedEntry(sprint: Printer, e: map<string, Json>, t: map<string, Json>, k: string): Json
    requires k in t
  {
    if k == "inbounds" || k == "outbounds" then MergedArray(Field(e, k), t[k])
    else if k == "routing" then MergedRouting(sprint, Field(e, k), t[k])
    else t[k]
  }

  function MergedEntries(sprint: Printer, e: map<string, Json>, t: map<string, Json>): map<string, Json> {
    map k | k in t :: MergedEntry(sprint, e, t, k)
  }

  function Merged(sprint: Printer, e: map<string, Json>, t: map<string, Json>): map<string, Json> {
    Overlaid(e, MergedEntries(sprint, e, t), t.Keys)
  }

  method MergeXrayConfig(sprint: Printer, existMap: map<string, Json>, tplMap: map<string, Json>)
    returns (result: map<string, Json>)
    ensures result == Merged(sprint, existMap, tplMap)
    ensures TemplateWins(existMap, tplMap, result)
  {
    result := existMap;
    var keys := tplMap.Keys;
    ghost var done, entries := {}, MergedEntries(sprint, existMap, tplMap);
    while keys != {}
      invariant keys + done == tplMap.Keys && keys !! done
      invariant result == Overlaid(existMap, entries, done)
      decreases keys
    {
      var k :| k in keys;
      OverlayOne(existMap, entries, done, k);
      var v := tplMap[k];
      if k == "inbounds" {
        v := MergeTaggedArray(Field(existMap, "inbounds"), v);
      } else if k == "outbounds" {
        v := MergeTaggedArray(Field(existMap, "outbounds"), v);
      } else if k == "routing" {
        v := MergeRouting(sprint, Field(existMap, "routing"), v);
      }
      result := result[k := v];
      keys, done := keys - {k}, done + {k};
    }
    assert done == tplMap.Keys;
    MergedKeys(sprint, existMap, tplMap);
  }

  /** When a second merge leaves one entry of the template alone. */
  predicate StableEntry(e: map<string, Json>, t: map<string, Json>, k: string)
    requires k in t
  {
    (k == "inbounds" || k == "outbounds" ==> AllTagged(Items(t[k]))) &&
    (k == "routing" ==> StableRouting(Field(e, k), t[k]))
  }

  /** The condition for restart stability, checkable on the two inputs. */
  predicate StableInputs(e: map<string, Json>, t: map<string, Json>) {
    && ("inbounds" in t ==> AllTagged(Items(t["inbounds"])))
    && ("outbounds" in t ==> AllTagged(Items(t["outbounds"])))
    && ("routing" in t ==> StableRouting(Field(e, "routing"), t["routing"]))
  }

  lemma StableEntries(e: map<string, Json>, t: map<string, Json>)
    ensures StableInputs(e, t) <==> forall k :: k in t ==> StableEntry(e, t, k)
  {
    if forall k :: k in t ==> StableEntry(e, t, k) {
      assert "inbounds" in t ==> StableEntry(e, t, "inbounds");
      assert "outbounds" in t ==> StableEntry(e, t, "outbounds");
      assert "routing" in t ==> StableEntry(e, t, "routing");
    }
  }

  lemma EntryIsStable(sprint: Printer, e: map<string, Json>, t: map<string, Json>, k: string)
    requires k in t
    ensures MergedEntry(sprint, Merged(sprint, e, t), t, k) == MergedEntry(sprint, e, t, k) <==> StableEntry(e, t, k)
  {
    assert Field(Merged(sprint, e, t), k) == MergedEntry(sprint, e, t, k);
    if k == "inbounds" || k == "outbounds" {
      ArrayMergeIsStable(Field(e, k), t[k]);
    } else if k == "routing" {
      RoutingMergeIsStable(sprint, Field(e, k), t[k]);
    }
  }

  lemma MergedKeys(sprint: Printer, e: map<string, Json>, t: map<string, Json>)
    ensures Merged(sprint, e, t).Keys == e.Keys + t.Keys
    ensures forall k :: k in t ==> Merged(sprint, e, t)[k] == MergedEntry(sprint, e, t, k)
    ensures forall k :: k in e && k !in t ==> Merged(sprint, e, t)[k] == e[k]
  {
  }

  /** What the merged configuration has under each key: of the keys that are merged entry by entry this says nothing; under
      every other key the template's value wins, and keys that only one of the two has are kept. */
  predicate TemplateWins(e: map<string, Json>, t: map<string, Json>, result: map<string, Json>) {
    && result.Keys == e.Keys + t.Keys
    && (forall k :: k in t && k != "inbounds" && k != "outbounds" && k != "routing" ==> result[k] == t[k])
    && (forall k :: k in e && k !in t ==> result[k] == e[k])
  }

  lemma SameValues(a: map<string, Json>, b: map<string, Json>)
    requires a.Keys == b.Keys
    ensures a == b <==> forall k :: k in a ==> a[k] == b[k]
  {
  }

  /** Restart stability: merging the same template again changes nothing, exactly under that condition. */
  lemma MergeIsStable(sprint: Printer, e: map<string, Json>, t: map<string, Json>)
    ensures Merged(sprint, Merged(sprint, e, t), t) == Merged(sprint, e, t) <==> StableInputs(e, t)
  {
    var once := Merged(sprint, e, t);
    var twice := Merged(sprint, once, t);
    MergedKeys(sprint, e, t);
    MergedKeys(sprint, once, t);
    assert twice.Keys == once.Keys;
    SameValues(twice, once);
    forall k | k in t
      ensures twice[k] == once[k] <==> StableEntry(e, t, k)
    {
      EntryIsStable(sprint, e, t, k);
    }
    StableEntries(e, t);
    assert forall k :: k in once ==> k in t || twice[k] == once[k];
  }

  // ---------- Sorting strings

  /** String comparison, character by character. */
  predicate LessEq(a: string, b: string) {
    a == "" || (b != "" && (a[0] < b[0] || (a[0] == b[0] && LessEq(a[1..], b[1..]))))
  }

  lemma {:induction false} LessEqTotal(a: string, b: string)
    ensures LessEq(a, b) || LessEq(b, a)
    ensures LessEq(a, b) && LessEq(b, a) ==> a == b
  {
    if a != "" && b != "" && a[0] == b[0] {
      LessEqTotal(a[1..], b[1..]);
      assert a == [a[0]] + a[1..] && b == [b[0]] + b[1..];
    }
  }

  lemma {:induction false} LessEqTransitive(a: string, b: string, c: string)
    requires LessEq(a, b) && LessEq(b, c)
    ensures LessEq(a, c)
  {
    if a != "" && a[0] == b[0] && b[0] == c[0] {
      LessEqTransitive(a[1..], b[1..], c[1..]);
    }
  }

  function Insert(x: string, xs: seq<string>): seq<string> {
    if xs == [] || LessEq(x, xs[0]) then [x] + xs else [xs[0]] + Insert(x, xs[1..])
  }

  /** sort.Strings */
  function SortStrings(xs: seq<string>): seq<string> {
    if xs == [] then [] else Insert(xs[0], SortStrings(xs[1..]))
  }

  lemma {:induction false} InsertsCommute(x: string, y: string, zs: seq<string>)
    ensures Insert(x, Insert(y, zs)) == Insert(y, Insert(x, zs))
  {
    LessEqTotal(x, y);
    if zs != [] {
      LessEqTotal(x, zs[0]);
      LessEqTotal(y, zs[0]);
      if !LessEq(x, zs[0]) && !LessEq(y, zs[0]) {
        InsertsCommute(x, y, zs[1..]);
      } else if LessEq(x, zs[0]) && !LessEq(y, zs[0]) {
        if LessEq(y, x) {
          LessEqTransitive(y, x, zs[0]);
        }
      } else if !LessEq(x, zs[0]) && LessEq(y, zs[0]) {
        if LessEq(x, y) {
          LessEqTransitive(x, y, zs[0]);
        }
      }
    }
  }

  /** Any string may be inserted last. */
  lemma {:induction false} SortAnyLast(xs: seq<string>, i: nat)
    requires i < |xs|
    ensures SortStrings(xs) == Insert(xs[i], SortStrings(Without(xs, i)))
    decreases |xs|
  {
    if i == 0 {
      assert Without(xs, 0) == xs[1..];
    } else {
      SortAnyLast(xs[1..], i - 1);
      assert Without(xs, i)[1..] == Without(xs[1..], i - 1);
      InsertsCommute(xs[0], xs[i], SortStrings(Without(xs[1..], i - 1)));
    }
  }

  lemma {:induction false} SortPermuted(xs: seq<string>, ys: seq<string>)
    requires multiset(xs) == multiset(ys)
    ensures SortStrings(xs) == SortStrings(ys)
    decreases |xs|
  {
    assert |multiset(xs)| == |multiset(ys)|;
    if xs != [] {
      var i := SameMultisetFind(xs[0], xs, ys);
      SortPermuted(Without(xs, 0), Without(ys, i));
      SortAnyLast(ys, i);
      SortAnyLast(xs, 0);
    }
  }

  lemma {:induction false} PrintWithout(sprint: Printer, xs: seq<Json>, i: nat)
    requires i < |xs|
    ensures PrintAll(sprint, xs)[i] == sprint(xs[i])
    ensures PrintAll(sprint, Without(xs, i)) == Without(PrintAll(sprint, xs), i)
    decreases |xs|
  {
    var ps := PrintAll(sprint, xs);
    assert ps[1..] == PrintAll(sprint, xs[1..]);
    if i == 0 {
      assert Without(xs, 0) == xs[1..] && Without(ps, 0) == ps[1..];
    } else {
      PrintWithout(sprint, xs[1..], i - 1);
      assert Without(xs, i)[1..] == Without(xs[1..], i - 1);
      assert Without(ps, i) == [ps[0]] + Without(ps[1..], i - 1);
    }
  }

  lemma {:induction false} SortPrinted(sprint: Printer, xs: seq<Json>, ys: seq<Json>)
    requires multiset(xs) == multiset(ys)
    ensures multiset(PrintAll(sprint, xs)) == multiset(PrintAll(sprint, ys))
    ensures SortStrings(PrintAll(sprint, xs)) == SortStrings(PrintAll(sprint, ys))
    decreases |xs|
  {
    assert |multiset(xs)| == |multiset(ys)|;
    if xs != [] {
      var i := SameMultisetFind(xs[0], xs, ys);
      SortPrinted(sprint, Without(xs, 0), Without(ys, i));
      PrintWithout(sprint, xs, 0);
      PrintWithout(sprint, ys, i);
      WithoutMultiset(PrintAll(sprint, xs), 0);
      WithoutMultiset(PrintAll(sprint, ys), i);
    }
    SortPermuted(PrintAll(sprint, xs), PrintAll(sprint, ys));
  }
}
