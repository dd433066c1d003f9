/** Features of an instance, and the callbacks that wait for them. */
module FeatureResolution {
  import opened Filters

  /** A feature announces one type and can be passed where any of several types is expected. */
  datatype RawFeature = RawFeature(name: string, kind: string, fits: set<string>)

  /** A feature implements the type that it announces. */
  type Feature = f: RawFeature | f.kind in f.fits witness RawFeature("", "", {""})

  datatype Resolution = Resolution(callback: int, deps: seq<string>)

  datatype Call = Call(resolution: Resolution, input: seq<Feature>)

  /** A Go slice of resolutions. The code tells nil from a slice. */
  datatype Pending = Nil | Slice(items: seq<Resolution>)

  function ItemsOf(p: Pending): seq<Resolution> {
    if p.Nil? then [] else p.items
  }

  function Append(p: Pending, r: Resolution): Pending {
    Slice(ItemsOf(p) + [r])
  }

  predicate Found(features: seq<Feature>, d: string) {
    exists i :: 0 <= i < |features| && features[i].kind == d
  }

  predicate AllFound(features: seq<Feature>, deps: seq<string>) {
    forall k :: 0 <= k < |deps| ==> Found(features, deps[k])
  }

  predicate IsReady(features: seq<Feature>, r: Resolution) {
    AllFound(features, r.deps)
  }

  predicate AllReady(features: seq<Feature>, rs: seq<Resolution>) {
    forall r :: r in rs ==> IsReady(features, r)
  }

  function Ready(features: seq<Feature>): Resolution -> bool {
    (r: Resolution) => IsReady(features, r)
  }

  function Waiting(features: seq<Feature>): Resolution -> bool {
    (r: Resolution) => !IsReady(features, r)
  }

  lemma FoundGrows(features: seq<Feature>, more: seq<Feature>, d: string)
    requires Found(features, d)
    ensures Found(features + more, d)
  {
    var i :| 0 <= i < |features| && features[i].kind == d;
    assert (features + more)[i] == features[i];
  }

  lemma ReadyGrows(features: seq<Feature>, more: seq<Feature>, r: Resolution)
    requires IsReady(features, r)
    ensures IsReady(features + more, r)
  {
    forall k | 0 <= k < |r.deps|
      ensures Found(features + more, r.deps[k])
    {
      FoundGrows(features, more, r.deps[k]);
    }
  }

  // ---------- The input of a callback

  /** The first feature from i on that can be passed as d. */
  function FirstFit(features: seq<Feature>, d: string, i: nat): (at: nat)
    requires i <= |features|
    ensures i <= at <= |features|
    ensures at < |features| ==> d in features[at].fits
    ensures forall k :: i <= k < at ==> d !in features[k].fits
    decreases |features| - i
  {
    if i == |features| || d in features[i].fits then i else FirstFit(features, d, i + 1)
  }

  /** What callbackResolution collects; a parameter without a feature is left out. */
  function Input(features: seq<Feature>, deps: seq<string>): seq<Feature> {
    if deps == [] then []
    else
      var at := FirstFit(features, deps[|deps| - 1], 0);
      Input(features, deps[..|deps| - 1]) + (if at < |features| then [features[at]] else [])
  }

  /** `x` is the first of the features that can be passed as d. */
  predicate IsFirstFit(features: seq<Feature>, d: string, x: Feature) {
    d in x.fits && exists i :: 0 <= i < |features| && features[i] == x && forall j :: 0 <= j < i ==> d !in features[j].fits
  }

  lemma {:induction false} InputFits(features: seq<Feature>, deps: seq<string>, k: nat)
    requires AllFound(features, deps) && k < |deps|
    ensures |Input(features, deps)| == |deps|
    ensures IsFirstFit(features, deps[k], Input(features, deps)[k])
    decreases |deps|
  {
    var front, d := deps[..|deps| - 1], deps[|deps| - 1];
    assert AllFound(features, front) by {
      assert forall j :: 0 <= j < |front| ==> front[j] == deps[j];
    }
    assert Found(features, d);
    var i :| 0 <= i < |features| && features[i].kind == d;
    assert d in features[i].fits;
    assert FirstFit(features, d, 0) <= i;
    if front != [] {
      InputFits(features, front, if k < |front| then k else 0);
    }
  }

  /** A callback whose dependencies are there gets for each parameter the first feature that fits: the check that would
      panic never fires. */
  lemma ReadyInput(features: seq<Feature>, deps: seq<string>)
    requires AllFound(features, deps)
    ensures |Input(features, deps)| == |deps|
    ensures forall k :: 0 <= k < |deps| ==> IsFirstFit(features, deps[k], Input(features, deps)[k])
  {
    forall k | 0 <= k < |deps|
      ensures |Input(features, deps)| == |deps|
      ensures IsFirstFit(features, deps[k], Input(features, deps)[k])
    {
      InputFits(features, deps, k);
    }
  }

  // ---------- The instance, step by step

  datatype State = State(features: seq<Feature>, required: seq<Resolution>, optional: seq<Resolution>,
                         running: bool, calls: seq<Call>)

  datatype Event = Require(r: Resolution, isOptional: bool) | AddFeature(f: Feature) | Start

  const FRESH := State([], [], [], false, [])

  function CallAll(features: seq<Feature>, rs: seq<Resolution>): (cs: seq<Call>)
    ensures |cs| == |rs|
  {
    if rs == [] then []
    else CallAll(features, rs[..|rs| - 1]) + [Call(rs[|rs| - 1], Input(features, rs[|rs| - 1].deps))]
  }

  function StepRequire(s: State, r: Resolution, isOptional: bool): State {
    if IsReady(s.features, r) then s.(calls := s.calls + CallAll(s.features, [r]))
    else if isOptional then s.(optional := s.optional + [r])
    else s.(required := s.required + [r])
  }

  /** The resolutions that a set of features frees. */
  function Freed(s: State, features: seq<Feature>): seq<Resolution> {
    Filter(s.required, Ready(features)) + Filter(s.optional, Ready(features))
  }

  function StepAdd(s: State, f: Feature): State {
    if s.running then s
    else
      var fs := s.features + [f];
      State(fs, Filter(s.required, Waiting(fs)), Filter(s.optional, Waiting(fs)), false,
            s.calls + CallAll(fs, Freed(s, fs)))
  }

  function Step(s: State, e: Event): State {
    match e
    case Require(r, isOptional) => StepRequire(s, r, isOptional)
    case AddFeature(f) => StepAdd(s, f)
    case Start => s.(running := true)
  }

  function Run(es: seq<Event>): State {
    if es == [] then FRESH else Step(Run(es[..|es| - 1]), es[|es| - 1])
  }

  // ---------- What a run has asked for

  /** The features added before the start. */
  function Added(es: seq<Event>): seq<Feature> {
    if es == [] then []
    else
      var front, e := es[..|es| - 1], es[|es| - 1];
      Added(front) + (if e.AddFeature? && Start !in front then [e.f] else [])
  }

  /** The resolutions asked for, required or optional. */
  function Asked(es: seq<Event>, isOptional: bool): seq<Resolution> {
    if es == [] then []
    else
      var e := es[|es| - 1];
      Asked(es[..|es| - 1], isOptional) + (if e.Require? && e.isOptional == isOptional then [e.r] else [])
  }

  function Resolutions(cs: seq<Call>): (rs: seq<Resolution>)
    ensures |rs| == |cs|
  {
    if cs == [] then [] else Resolutions(cs[..|cs| - 1]) + [cs[|cs| - 1].resolution]
  }

  lemma {:induction false} ResolutionsAppend(a: seq<Call>, b: seq<Call>)
    ensures Resolutions(a + b) == Resolutions(a) + Resolutions(b)
  {
    if b == [] {
      assert a + b == a;
    } else {
      ResolutionsAppend(a, b[..|b| - 1]);
      assert (a + b)[..|a + b| - 1] == a + b[..|b| - 1];
    }
  }

  lemma {:induction false} CallAllResolutions(features: seq<Feature>, rs: seq<Resolution>)
    ensures Resolutions(CallAll(features, rs)) == rs
  {
    if rs != [] {
      CallAllResolutions(features, rs[..|rs| - 1]);
      var cs := CallAll(features, rs);
      assert cs[..|cs| - 1] == CallAll(features, rs[..|rs| - 1]);
    }
  }

  lemma FilterSplits(rs: seq<Resolution>, features: seq<Feature>)
    ensures multiset(Filter(rs, Ready(features))) + multiset(Filter(rs, Waiting(features))) == multiset(rs)
  {
    FilterPartition(rs, Ready(features), Waiting(features));
  }

  lemma WaitingAgain(rs: seq<Resolution>, features: seq<Feature>, f: Feature)
    ensures Filter(Filter(rs, Waiting(features)), Waiting(features + [f])) == Filter(rs, Waiting(features + [f]))
  {
    FilterTwice(rs, Waiting(features), Waiting(features + [f]));
    forall r | r in rs
      ensures Both(Waiting(features), Waiting(features + [f]))(r) == Waiting(features + [f])(r)
    {
      if IsReady(features, r) {
        ReadyGrows(features, [f], r);
      }
    }
    FilterSame(rs, Both(Waiting(features), Waiting(features + [f])), Waiting(features + [f]));
  }

  /** Where a run stands: a resolution is pending exactly if some dependency is absent. */
  ghost predicate Tracks(s: State, es: seq<Event>) {
    && s.features == Added(es)
    && s.required == Filter(Asked(es, false), Waiting(s.features))
    && s.optional == Filter(Asked(es, true), Waiting(s.features))
    && (s.running <==> Start in es)
  }

  lemma AskedSnoc(es: seq<Event>, e: Event, isOptional: bool)
    ensures Asked(es + [e], isOptional) ==
            if e.Require? && e.isOptional == isOptional then Asked(es, isOptional) + [e.r] else Asked(es, isOptional)
  {
    assert (es + [e])[..|es|] == es;
  }

  lemma AddedSnoc(es: seq<Event>, e: Event)
    ensures Added(es + [e]) == if e.AddFeature? && Start !in es then Added(es) + [e.f] else Added(es)
    ensures Start in es + [e] <==> Start in es || e == Start
  {
    assert (es + [e])[..|es|] == es;
  }

  lemma TracksRequire(s: State, es: seq<Event>, r: Resolution, isOptional: bool)
    requires Tracks(s, es)
    ensures Tracks(StepRequire(s, r, isOptional), es + [Require(r, isOptional)])
  {
    AddedSnoc(es, Require(r, isOptional));
    AskedSnoc(es, Require(r, isOptional), false);
    AskedSnoc(es, Require(r, isOptional), true);
    FilterSnoc(Asked(es, isOptional), r, Waiting(s.features));
  }

  lemma TracksAdd(s: State, es: seq<Event>, f: Feature)
    requires Tracks(s, es)
    ensures Tracks(StepAdd(s, f), es + [AddFeature(f)])
  {
    AddedSnoc(es, AddFeature(f));
    AskedSnoc(es, AddFeature(f), false);
    AskedSnoc(es, AddFeature(f), true);
    WaitingAgain(Asked(es, false), s.features, f);
    WaitingAgain(Asked(es, true), s.features, f);
  }

  lemma TracksStart(s: State, es: seq<Event>)
    requires Tracks(s, es)
    ensures Tracks(s.(running := true), es + [Start])
  {
    AddedSnoc(es, Start);
    AskedSnoc(es, Start, false);
    AskedSnoc(es, Start, true);
  }

  lemma {:induction false} RunTracks(es: seq<Event>)
    ensures Tracks(Run(es), es)
  {
    if es != [] {
      var front, e := es[..|es| - 1], es[|es| - 1];
      RunTracks(front);
      assert es == front + [e];
      match e
      case Require(r, isOptional) => TracksRequire(Run(front), front, r, isOptional);
      case AddFeature(f) => TracksAdd(Run(front), front, f);
      case Start => TracksStart(Run(front), front);
    }
  }

  // ---------- Exactly once

  function Called(s: State): seq<Resolution> {
    Resolutions(s.calls)
  }

  /** Everything asked for has been called or is waiting, once. */
  ghost predicate Balanced(s: State, es: seq<Event>) {
    multiset(Called(s)) + multiset(s.required) + multiset(s.optional) ==
    multiset(Asked(es, false)) + multiset(Asked(es, true))
  }

  /** The callbacks that one event runs. */
  function StepCalls(s: State, e: Event): seq<Resolution> {
    match e
    case Require(r, _) => if IsReady(s.features, r) then [r] else []
    case AddFeature(f) => if s.running then [] else Freed(s, s.features + [f])
    case Start => []
  }

  lemma StepCallsThem(s: State, e: Event)
    ensures Called(Step(s, e)) == Called(s) + StepCalls(s, e)
  {
    match e
    case Require(r, isOptional) =>
      if IsReady(s.features, r) {
        ResolutionsAppend(s.calls, CallAll(s.features, [r]));
        CallAllResolutions(s.features, [r]);
      }
    case AddFeature(f) =>
      if !s.running {
        var fs := s.features + [f];
        ResolutionsAppend(s.calls, CallAll(fs, Freed(s, fs)));
        CallAllResolutions(fs, Freed(s, fs));
      }
    case Start =>
  }

  lemma AddBalances(s: State, es: seq<Event>, f: Feature)
    requires Balanced(s, es) && !s.running
    ensures multiset(Called(s) + Freed(s, s.features + [f])) + multiset(Filter(s.required, Waiting(s.features + [f]))) +
            multiset(Filter(s.optional, Waiting(s.features + [f]))) ==
            multiset(Asked(es, false)) + multiset(Asked(es, true))
  {
    var fs := s.features + [f];
    FilterSplits(s.required, fs);
    FilterSplits(s.optional, fs);
    Sums(multiset(Called(s)), multiset(Filter(s.required, Ready(fs))), multiset(Filter(s.optional, Ready(fs))),
         multiset(Filter(s.required, Waiting(fs))), multiset(Filter(s.optional, Waiting(fs))));
  }

  lemma Sums<T>(c: multiset<T>, a: multiset<T>, b: multiset<T>, x: multiset<T>, y: multiset<T>)
    ensures (c + (a + b)) + x + y == c + (a + x) + (b + y)
  {
  }

  lemma StepBalances(s: State, es: seq<Event>, e: Event)
    requires Balanced(s, es)
    ensures Balanced(Step(s, e), es + [e])
  {
    AskedSnoc(es, e, false);
    AskedSnoc(es, e, true);
    StepCallsThem(s, e);
    match e
    case Require(r, isOptional) => RequireBalances(s, es, r, isOptional);
    case AddFeature(f) =>
      if !s.running {
        AddBalances(s, es, f);
      }
    case Start =>
  }

  lemma RequireBalances(s: State, es: seq<Event>, r: Resolution, isOptional: bool)
    requires Balanced(s, es)
    ensures var s' := StepRequire(s, r, isOptional);
            multiset(Called(s) + StepCalls(s, Require(r, isOptional))) + multiset(s'.required) + multiset(s'.optional) ==
            multiset(Asked(es, false)) + multiset(Asked(es, true)) + multiset{r}
  {
  }

  lemma {:induction false} RunBalances(es: seq<Event>)
    ensures Balanced(Run(es), es)
  {
    if es != [] {
      var front := es[..|es| - 1];
      RunBalances(front);
      StepBalances(Run(front), front, es[|es| - 1]);
      assert es == front + [es[|es| - 1]];
    }
  }

  /** Over any run, each callback has run exactly once if its dependencies are there, and not at all otherwise. */
  lemma ExactlyOnce(es: seq<Event>)
    ensures var ready := Ready(Added(es));
            multiset(Called(Run(es))) ==
            multiset(Filter(Asked(es, false), ready)) + multiset(Filter(Asked(es, true), ready))
  {
    RunTracks(es);
    RunBalances(es);
    var fs := Added(es);
    FilterSplits(Asked(es, false), fs);
    FilterSplits(Asked(es, true), fs);
    Cancel(multiset(Called(Run(es))), multiset(Filter(Asked(es, false), Ready(fs))), multiset(Filter(Asked(es, true), Ready(fs))),
           multiset(Filter(Asked(es, false), Waiting(fs))), multiset(Filter(Asked(es, true), Waiting(fs))));
  }

  lemma Cancel<T>(c: multiset<T>, a: multiset<T>, b: multiset<T>, x: multiset<T>, y: multiset<T>)
    requires c + x + y == (a + x) + (b + y)
    ensures c == a + b
  {
    assert c == (c + x + y) - x - y;
  }

  lemma FreedAreNew(s: State, es: seq<Event>, f: Feature, r: Resolution)
    requires Tracks(s, es) && r in Freed(s, s.features + [f])
    ensures IsReady(s.features + [f], r) && !IsReady(s.features, r)
  {
    FilterMembers(s.required, Ready(s.features + [f]));
    FilterMembers(s.optional, Ready(s.features + [f]));
    FilterMembers(Asked(es, false), Waiting(s.features));
    FilterMembers(Asked(es, true), Waiting(s.features));
  }

  lemma Completes(features: seq<Feature>, f: Feature, r: Resolution)
    requires IsReady(features + [f], r) && !IsReady(features, r)
    ensures f.kind in r.deps
  {
    var k :| 0 <= k < |r.deps| && !Found(features, r.deps[k]);
    assert Found(features + [f], r.deps[k]);
    var i :| 0 <= i < |features + [f]| && (features + [f])[i].kind == r.deps[k];
    assert i == |features|;
  }

  /** It runs in the very event that completes its dependencies: they are complete behind that event, and were not
      before it unless the event is the one that asks for the callback. */
  lemma CalledWhenComplete(es: seq<Event>, e: Event, r: Resolution)
    requires r in StepCalls(Run(es), e)
    ensures IsReady(Added(es + [e]), r)
    ensures e == Require(r, false) || e == Require(r, true) ||
            (e.AddFeature? && !IsReady(Added(es), r) && e.f.kind in r.deps)
  {
    var s := Run(es);
    RunTracks(es);
    AddedSnoc(es, e);
    if e.AddFeature? {
      FreedAreNew(s, es, e.f, r);
      Completes(s.features, e.f, r);
    }
  }

  lemma NothingWaits(features: seq<Feature>, rs: seq<Resolution>)
    ensures Filter(rs, Waiting(features)) == [] <==> AllReady(features, rs)
  {
    FilterDropsAll(rs, Waiting(features));
    if AllReady(features, rs) {
      forall r | r in rs
        ensures !Waiting(features)(r)
      {
      }
    } else {
      var r :| r in rs && !IsReady(features, r);
      assert Waiting(features)(r);
    }
  }

  /** Nothing required is pending exactly if the dependencies of everything required are there. */
  lemma NothingPending(es: seq<Event>)
    ensures Run(es).required == [] <==> AllReady(Added(es), Asked(es, false))
  {
    RunTracks(es);
    NothingWaits(Added(es), Asked(es, false));
  }

  lemma WaitingIsNotCalled(es: seq<Event>, r: Resolution)
    requires r in Asked(es, false) && !IsReady(Added(es), r)
    ensures r !in multiset(Called(Run(es)))
  {
    ExactlyOnce(es);
    FilterMembers(Asked(es, false), Ready(Added(es)));
    FilterMembers(Asked(es, true), Ready(Added(es)));
  }

  /** The check behind the essential features passes exactly if every required callback has run, as often as it was
      asked for. */
  lemma AllRequiredHaveRun(es: seq<Event>)
    ensures Run(es).required == [] <==> multiset(Asked(es, false)) <= multiset(Called(Run(es)))
  {
    var asked, fs := Asked(es, false), Added(es);
    NothingPending(es);
    if Run(es).required == [] {
      ExactlyOnce(es);
      FilterKeepsAll(asked, Ready(fs));
    } else {
      var r :| r in asked && !IsReady(fs, r);
      WaitingIsNotCalled(es, r);
      assert r in multiset(asked);
    }
  }

  // ---------- The code

  method FoundAll(features: seq<Feature>, r: Resolution) returns (foundAll: bool)
    ensures foundAll <==> IsReady(features, r)
  {
    foundAll := true;
    for k := 0 to |r.deps|
      invariant foundAll
      invariant forall j :: 0 <= j < k ==> Found(features, r.deps[j])
    {
      var found := GetFeature(features, r.deps[k]);
      if !found {
        foundAll := false;
        break;
      }
    }
  }

  /** getFeature; all its callers here ask only whether there is one. */
  method GetFeature(allFeatures: seq<Feature>, t: string) returns (found: bool)
    ensures found <==> Found(allFeatures, t)
  {
    for i := 0 to |allFeatures|
      invariant forall k :: 0 <= k < i ==> allFeatures[k].kind != t
    {
      if allFeatures[i].kind == t {
        return true;
      }
    }
    return false;
  }

  method CollectInput(features: seq<Feature>, deps: seq<string>) returns (input: seq<Feature>)
    ensures input == Input(features, deps)
  {
    input := [];
    for k := 0 to |deps|
      invariant input == Input(features, deps[..k])
    {
      assert deps[..k + 1][..k] == deps[..k];
      for i := 0 to |features|
        invariant input == Input(features, deps[..k])
        invariant FirstFit(features, deps[k], 0) == FirstFit(features, deps[k], i)
      {
        if deps[k] in features[i].fits {
          input := input + [features[i]];
          break;
        }
      }
    }
    assert deps[..|deps|] == deps;
  }

  /** One of the two loops of AddFeature over what is pending. */
  method Sift(features: seq<Feature>, rs: Pending) returns (available: seq<Resolution>, pending: Pending)
    ensures AllReady(features, available)
    ensures available == Filter(ItemsOf(rs), Ready(features))
    ensures ItemsOf(pending) == Filter(ItemsOf(rs), Waiting(features))
    ensures pending.Slice? ==> pending.items != []
  {
    var items := ItemsOf(rs);
    available, pending := [], Nil;
    for i := 0 to |items|
      invariant available == Filter(items[..i], Ready(features))
      invariant ItemsOf(pending) == Filter(items[..i], Waiting(features))
      invariant pending.Slice? ==> pending.items != []
    {
      FilterNext(items, i, Ready(features));
      FilterNext(items, i, Waiting(features));
      var foundAll := FoundAll(features, items[i]);
      if foundAll {
        available := available + [items[i]];
      } else {
        pending := Append(pending, items[i]);
      }
    }
    assert items[..|items|] == items;
    FilterReady(features, items);
  }

  lemma {:induction false} FilterReady(features: seq<Feature>, rs: seq<Resolution>)
    ensures AllReady(features, Filter(rs, Ready(features)))
  {
    if rs != [] {
      FilterReady(features, rs[..|rs| - 1]);
    }
  }

  class Instance {
    var features: seq<Feature>
    var pendingResolutions: Pending
    var pendingOptionalResolutions: Pending
    var running: bool
    /** The callbacks run so far, with their arguments. */
    var calls: seq<Call>
    /** The features started so far, in order. */
    var started: seq<Feature>
    /** What a callback returns, "" for no error. */
    const errorOf: Call -> string
    /** What the start of a feature returns. */
    const startErrorOf: Feature -> string

    constructor (errorOf: Call -> string, startErrorOf: Feature -> string)
      ensures Valid() && Abstract() == FRESH && started == []
      ensures this.errorOf == errorOf && this.startErrorOf == startErrorOf
    {
      features, pendingResolutions, pendingOptionalResolutions, running, calls := [], Nil, Nil, false, [];
      started := [];
      this.errorOf, this.startErrorOf := errorOf, startErrorOf;
    }

    predicate Valid()
      reads this
    {
      (pendingResolutions.Slice? ==> pendingResolutions.items != []) &&
      (pendingOptionalResolutions.Slice? ==> pendingOptionalResolutions.items != [])
    }

    function Abstract(): State
      reads this
    {
      State(features, ItemsOf(pendingResolutions), ItemsOf(pendingOptionalResolutions), running, calls)
    }

    method CallbackResolution(r: Resolution) returns (err: string)
      requires IsReady(features, r)
      modifies `calls
      ensures calls == old(calls) + [Call(r, Input(features, r.deps))]
      ensures err == errorOf(Call(r, Input(features, r.deps)))
    {
      var input := CollectInput(features, r.deps);
      ReadyInput(features, r.deps);
      assert |input| == |r.deps|;
      calls := calls + [Call(r, input)];
      err := errorOf(Call(r, input));
    }

    method RequireFeatures(r: Resolution, optional: bool) returns (err: string)
      requires Valid()
      modifies this
      ensures Valid() && Abstract() == StepRequire(old(Abstract()), r, optional) && started == old(started)
      ensures err == if IsReady(features, r) then errorOf(Call(r, Input(features, r.deps))) else ""
    {
      var foundAll := FoundAll(features, r);
      if foundAll {
        assert [r][..0] == [];
        err := CallbackResolution(r);
      } else if optional {
        pendingOptionalResolutions := Append(pendingOptionalResolutions, r);
        err := "";
      } else {
        pendingResolutions := Append(pendingResolutions, r);
        err := "";
      }
    }

    /** The last callback's result is returned, whatever the others returned. On a running instance the feature is only
        started, and an error of that is not returned. */
    method AddFeature(f: Feature) returns (err: string)
      requires Valid()
      modifies this
      ensures Valid() && Abstract() == StepAdd(old(Abstract()), f)
      ensures started == old(started) + if old(running) then [f] else []
      ensures err == if |calls| == |old(calls)| then "" else errorOf(calls[|calls| - 1])
    {
      if running {
        var ignored := StartFeature(f);
        return "";
      }
      features := features + [f];
      var required, optional;
      required, pendingResolutions := Sift(features, pendingResolutions);
      optional, pendingOptionalResolutions := Sift(features, pendingOptionalResolutions);
      err := CallAvailable(required + optional);
    }

    method StartFeature(f: Feature) returns (err: string)
      modifies `started
      ensures started == old(started) + [f] && err == startErrorOf(f)
    {
      started := started + [f];
      err := startErrorOf(f);
    }

    /** The features are started in order, up to the first that fails; the instance counts as running in any case. */
    method Start() returns (err: string)
      requires Valid()
      modifies `running, `started
      ensures Valid() && Abstract() == Step(old(Abstract()), Event.Start)
      ensures old(started) <= started && started[|old(started)|..] <= features
      ensures err == "" ==> started == old(started) + features && forall f :: f in features ==> startErrorOf(f) == ""
      ensures err != "" ==>
                var now := started[|old(started)|..];
                now != [] && err == startErrorOf(now[|now| - 1]) &&
                forall i :: 0 <= i < |now| - 1 ==> startErrorOf(now[i]) == ""
    {
      running := true;
      for i := 0 to |features|
        invariant running && started == old(started) + features[..i]
        invariant forall k :: 0 <= k < i ==> startErrorOf(features[k]) == ""
      {
        err := StartFeature(features[i]);
        assert features[..i + 1] == features[..i] + [features[i]];
        assert started == old(started) + features[..i + 1];
        if err != "" {
          assert started[|old(started)|..] == features[..i + 1];
          return;
        }
      }
      assert features[..|features|] == features && started[|old(started)|..] == features;
      err := "";
    }

    method CallAvailable(available: seq<Resolution>) returns (err: string)
      requires AllReady(features, available)
      modifies `calls
      ensures calls == old(calls) + CallAll(features, available)
      ensures err == if available == [] then "" else errorOf(calls[|calls| - 1])
    {
      err := "";
      for i := 0 to |available|
        invariant calls == old(calls) + CallAll(features, available[..i])
        invariant err == if i == 0 then "" else errorOf(calls[|calls| - 1])
      {
        assert available[..i + 1][..i] == available[..i];
        err := CallbackResolution(available[i]);
      }
      assert available[..|available|] == available;
    }

    /** The check of initInstanceWithConfig. */
    method AllResolved() returns (ok: bool)
      requires Valid()
      ensures ok <==> Abstract().required == []
    {
      ok := pendingResolutions == Nil;
    }
  }
}
