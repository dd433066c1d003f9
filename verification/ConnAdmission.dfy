/** Admission to a connection group under every interleaving of the atomic instructions of AcquireConn and
    ReleaseConn. */
module ConnAdmission {

  type Group = string
  type Conn = nat

  /** Where one connection stands between two atomic instructions. */
  datatype Phase =
    | Added(n: int)    // the counter was incremented to n; the test comes next
    | Undoing          // over the limit; the decrement comes next
    | Held             // admitted, and not yet released
    | Clamping         // the release found the counter below zero; storing zero comes next
    | Gone             // rejected or released

  /** A connection known to the limiter. Its limit was read with its user record when it came; zero or less
      means unlimited. */
  datatype Entry = Entry(group: Group, limit: int, phase: Phase)

  /** The shared counters and all connections so far. */
  datatype State = State(counters: map<Group, int>, conns: map<Conn, Entry>) {
    function Counter(g: Group): int {
      if g in counters then counters[g] else 0
    }

    function SetCounter(g: Group, n: int): State {
      this.(counters := counters[g := n])
    }

    function Move(c: Conn, p: Phase): State
      requires c in conns
    {
      this.(conns := conns[c := conns[c].(phase := p)])
    }
  }

  const INITIAL := State(map[], map[])

  /** One atomic instruction of one connection. */
  datatype Step =
    | Add(c: Conn, group: Group, limit: int)   // c.Add(1) in AcquireConn
    | Test(c: Conn)                            // n > connLimit, on the value that Add returned
    | Undo(c: Conn)                            // c.Add(-1) after a failed test
    | Release(c: Conn)                         // c.Add(-1) in ReleaseConn
    | Clamp(c: Conn)                           // c.Store(0) in ReleaseConn

  predicate Enabled(s: State, t: Step) {
    match t
    case Add(c, _, _) => c !in s.conns
    case Test(c) => c in s.conns && s.conns[c].phase.Added?
    case Undo(c) => c in s.conns && s.conns[c].phase.Undoing?
    case Release(c) => c in s.conns && s.conns[c].phase.Held?
    case Clamp(c) => c in s.conns && s.conns[c].phase.Clamping?
  }

  function Next(s: State, t: Step): State
    requires Enabled(s, t)
  {
    match t
    case Add(c, g, limit) =>
      var n := s.Counter(g) + 1;
      State(s.counters[g := n], s.conns[c := Entry(g, limit, Added(n))])
    case Test(c) =>
      var e := s.conns[c];
      s.Move(c, if e.limit > 0 && e.phase.n > e.limit then Undoing else Held)
    case Undo(c) =>
      var g := s.conns[c].group;
      s.SetCounter(g, s.Counter(g) - 1).Move(c, Gone)
    case Release(c) =>
      var g := s.conns[c].group;
      var n := s.Counter(g) - 1;
      s.SetCounter(g, n).Move(c, if n < 0 then Clamping else Gone)
    case Clamp(c) =>
      s.SetCounter(s.conns[c].group, 0).Move(c, Gone)
  }

  /** The states of a run, one instruction at a time, whichever connection the scheduler picks. */
  predicate Run(states: seq<State>, steps: seq<Step>) {
    && |states| == |steps| + 1
    && states[0] == INITIAL
    && forall i :: 0 <= i < |steps| ==> Enabled(states[i], steps[i]) && states[i + 1] == Next(states[i], steps[i])
  }

  // ---------- The invariant

  /** Connections of group g that the counter counts: admitted, about to be tested, or about to undo. */
  function Counted(s: State, g: Group): set<Conn> {
    set c | c in s.conns && s.conns[c].group == g &&
            (s.conns[c].phase.Added? || s.conns[c].phase.Undoing? || s.conns[c].phase.Held?)
  }

  function HeldIn(s: State, g: Group): set<Conn> {
    set c | c in s.conns && s.conns[c].group == g && s.conns[c].phase.Held?
  }

  /** Connections that are admitted, or whose test will admit them. */
  function Admitted(s: State, g: Group, limit: int): set<Conn> {
    set c | c in s.conns && s.conns[c].group == g &&
            (s.conns[c].phase.Held? || (s.conns[c].phase.Added? && s.conns[c].phase.n <= limit))
  }

  /** No connection of the group came unlimited or with a limit above this one. */
  predicate LimitedBy(s: State, g: Group, limit: int) {
    forall c :: c in s.conns && s.conns[c].group == g ==> 0 < s.conns[c].limit <= limit
  }

  ghost predicate Exact(s: State) {
    && (forall g: Group :: s.Counter(g) == |Counted(s, g)|)
    && (forall c :: c in s.conns ==> !s.conns[c].phase.Clamping?)
  }

  ghost predicate Within(s: State) {
    forall g: Group, limit: nat :: LimitedBy(s, g, limit) ==> |Admitted(s, g, limit)| <= limit
  }

  lemma SubsetSize<T>(a: set<T>, b: set<T>)
    requires a <= b
    ensures |a| <= |b|
  {
    assert b == a + (b - a);
  }

  /** How one connection's move changes a set of connections. */
  lemma Moved(before: set<Conn>, after: set<Conn>, c: Conn)
    requires forall x :: x != c ==> (x in before <==> x in after)
    ensures |after| == |before| + (if c in after then 1 else 0) - (if c in before then 1 else 0)
  {
    var others := after - {c};
    assert others == before - {c};
    assert after == others + (if c in after then {c} else {});
    assert before == others + (if c in before then {c} else {});
  }

  lemma CountedMoves(s: State, t: Step, g: Group)
    requires Enabled(s, t)
    ensures var d := |Counted(Next(s, t), g)| - |Counted(s, g)|;
            match t
            case Add(_, h, _) => d == if g == h then 1 else 0
            case Test(_) => d == 0
            case Undo(c) => d == if g == s.conns[c].group then -1 else 0
            case Release(c) => d == if g == s.conns[c].group then -1 else 0
            case Clamp(c) => d == 0
  {
    Moved(Counted(s, g), Counted(Next(s, t), g), t.c);
  }

  /** The counter equals held connections plus those pending, and the clamp at zero is never needed. */
  lemma ExactStep(s: State, t: Step)
    requires Exact(s) && Enabled(s, t)
    ensures Exact(Next(s, t))
  {
    var s' := Next(s, t);
    forall g: Group
      ensures s'.Counter(g) == |Counted(s', g)|
    {
      CountedMoves(s, t, g);
    }
    if t.Release? {
      assert t.c in Counted(s, s.conns[t.c].group);
    }
  }

  lemma AdmittedIsCounted(s: State, g: Group, limit: int)
    ensures |Admitted(s, g, limit)| <= |Counted(s, g)|
  {
    SubsetSize(Admitted(s, g, limit), Counted(s, g));
  }

  lemma WithinStep(s: State, t: Step)
    requires Exact(s) && Within(s) && Enabled(s, t)
    ensures Within(Next(s, t))
  {
    var s' := Next(s, t);
    forall g: Group, limit: nat | LimitedBy(s', g, limit)
      ensures |Admitted(s', g, limit)| <= limit
    {
      assert LimitedBy(s, g, limit) by {
        forall c | c in s.conns && s.conns[c].group == g
          ensures 0 < s.conns[c].limit <= limit
        {
          assert c in s'.conns && s'.conns[c].limit == s.conns[c].limit && s'.conns[c].group == g;
        }
      }
      Moved(Admitted(s, g, limit), Admitted(s', g, limit), t.c);
      AdmittedIsCounted(s, g, limit);
      if t.Test? && s.conns[t.c].group == g {
        assert s.conns[t.c].limit <= limit;
      }
    }
  }

  lemma {:induction false} RunIsSafe(states: seq<State>, steps: seq<Step>, i: nat)
    requires Run(states, steps) && i < |states|
    ensures Exact(states[i]) && Within(states[i])
  {
    if i == 0 {
      forall g: Group, limit: int
        ensures Counted(INITIAL, g) == {} && Admitted(INITIAL, g, limit) == {}
      {
      }
    } else {
      RunIsSafe(states, steps, i - 1);
      ExactStep(states[i - 1], steps[i - 1]);
      WithinStep(states[i - 1], steps[i - 1]);
    }
  }

  // ---------- What the limiter promises

  /** At any moment of any run, a group whose connections all came with a limit of at most L holds at most L of
      them. The limit may have been raised and lowered meanwhile. */
  lemma NeverOverLimit(states: seq<State>, steps: seq<Step>, i: nat, g: Group, limit: nat)
    requires Run(states, steps) && i < |states|
    requires LimitedBy(states[i], g, limit)
    ensures |HeldIn(states[i], g)| <= limit
  {
    RunIsSafe(states, steps, i);
    SubsetSize(HeldIn(states[i], g), Admitted(states[i], g, limit));
  }

  /** Releasing an admitted connection never finds the counter below one, so no run ever stores zero. */
  lemma NeverClamps(states: seq<State>, steps: seq<Step>, i: nat)
    requires Run(states, steps) && i < |steps|
    ensures !steps[i].Clamp?
    ensures steps[i].Release? ==> states[i + 1].conns[steps[i].c].phase == Gone
    ensures forall g: Group :: states[i].Counter(g) >= 0
  {
    RunIsSafe(states, steps, i);
    RunIsSafe(states, steps, i + 1);
  }

  /** Nobody is between the instructions of AcquireConn or ReleaseConn. */
  predicate Quiet(s: State) {
    forall c :: c in s.conns ==> s.conns[c].phase.Held? || s.conns[c].phase.Gone?
  }

  /** When nothing is in flight the counter is the live count. */
  lemma QuietCountIsExact(states: seq<State>, steps: seq<Step>, i: nat, g: Group)
    requires Run(states, steps) && i < |states| && Quiet(states[i])
    ensures states[i].Counter(g) == |HeldIn(states[i], g)|
  {
    RunIsSafe(states, steps, i);
    assert Counted(states[i], g) == HeldIn(states[i], g);
  }

  /** An attempt that runs without interference from a quiet state is admitted exactly if the group is
      unlimited or not full, and a rejected one leaves the counters as they were. */
  lemma AloneAdmitsExactly(states: seq<State>, steps: seq<Step>, i: nat, c: Conn, g: Group, limit: int)
    requires Run(states, steps) && i < |states| && Quiet(states[i]) && c !in states[i].conns
    ensures var tested := Next(Next(states[i], Add(c, g, limit)), Test(c));
            if limit <= 0 || |HeldIn(states[i], g)| < limit then
              tested.conns[c].phase == Held
            else
              && Enabled(tested, Undo(c))
              && forall h: Group :: Next(tested, Undo(c)).Counter(h) == states[i].Counter(h)
  {
    QuietCountIsExact(states, steps, i, g);
  }

  /** A rejection is always justified by the counter: at the increment that fails, held, pending and undoing
      connections together already fill the group. */
  lemma RejectionMeansFull(states: seq<State>, steps: seq<Step>, i: nat)
    requires Run(states, steps) && i < |steps| && steps[i].Add? && steps[i].limit > 0
    requires states[i + 1].conns[steps[i].c].phase.n > steps[i].limit
    ensures |Counted(states[i], steps[i].group)| >= steps[i].limit
  {
    RunIsSafe(states, steps, i);
  }
}
