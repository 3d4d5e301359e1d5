/** Dominance between objective vectors and the Pareto front of a list of candidates. */
module Pareto {

  datatype Result<+T> = Ok(value: T) | Err(why: Failure)

  datatype Failure = NoCandidates | NamesDiffer | DirectionsDiffer | NotAscending

  datatype Objective = Objective(name: string, value: real, maximize: bool)

  type Vector = seq<Objective>

  function Names(v: Vector): seq<string> {
    seq(|v|, i requires 0 <= i < |v| => v[i].name)
  }

  function Directions(v: Vector): seq<bool> {
    seq(|v|, i requires 0 <= i < |v| => v[i].maximize)
  }

  /** Vectors that may be compared: same names and directions in the same order. */
  predicate Comparable(a: Vector, b: Vector) {
    Names(a) == Names(b) && Directions(a) == Directions(b)
  }

  lemma ComparableFacts(a: Vector, b: Vector)
    requires Comparable(a, b)
    ensures |a| == |b| && forall i :: 0 <= i < |a| ==> a[i].name == b[i].name && a[i].maximize == b[i].maximize
  {
    assert |Names(a)| == |Names(b)|;
    forall i | 0 <= i < |a|
      ensures a[i].name == b[i].name && a[i].maximize == b[i].maximize
    {
      assert Names(a)[i] == Names(b)[i] && Directions(a)[i] == Directions(b)[i];
    }
  }

  /** The value of `a` is preferred to that of `b`. */
  predicate Better(a: Objective, b: Objective) {
    if a.maximize then a.value > b.value else a.value < b.value
  }

  /** No worse in any objective, and better in one. */
  predicate Dominates(a: Vector, b: Vector)
    requires |a| == |b|
  {
    && (forall i :: 0 <= i < |a| ==> !Better(b[i].(maximize := a[i].maximize), a[i]))
    && (exists i :: 0 <= i < |a| && Better(a[i], b[i]))
  }

  lemma DominatesInValues(a: Vector, b: Vector)
    requires |a| == |b|
    ensures Dominates(a, b) <==>
              && (forall i :: 0 <= i < |a| ==> if a[i].maximize then a[i].value >= b[i].value else a[i].value <= b[i].value)
              && (exists i :: 0 <= i < |a| && a[i].value != b[i].value)
  {
    if (forall i :: 0 <= i < |a| ==> if a[i].maximize then a[i].value >= b[i].value else a[i].value <= b[i].value)
       && (exists i :: 0 <= i < |a| && a[i].value != b[i].value) {
      var i :| 0 <= i < |a| && a[i].value != b[i].value;
      assert Better(a[i], b[i]);
    }
  }

  /** `dominates`: one pass with two flags. */
  method CheckDominates(a: Vector, b: Vector) returns (result: Result<bool>)
    ensures result.Ok? <==> Comparable(a, b)
    ensures result.Ok? ==> |a| == |b| && result.value == Dominates(a, b)
    // In values: at least as much wherever more is wanted, at most as much wherever less is, and not all equal.
    ensures result.Ok? ==>
              (result.value <==>
                && (forall i :: 0 <= i < |a| ==> if a[i].maximize then a[i].value >= b[i].value else a[i].value <= b[i].value)
                && (exists i :: 0 <= i < |a| && a[i].value != b[i].value))
  {
    if Names(a) != Names(b) { return Err(NamesDiffer); }
    if Directions(a) != Directions(b) { return Err(DirectionsDiffer); }
    ComparableFacts(a, b);
    var noWorse, better := true, false;
    var i := 0;
    while i < |a|
      invariant i <= |a|
      invariant noWorse == forall k :: 0 <= k < i ==> !Better(b[k].(maximize := a[k].maximize), a[k])
      invariant better == exists k :: 0 <= k < i && Better(a[k], b[k])
    {
      if a[i].maximize {
        if a[i].value < b[i].value { noWorse := false; } else if a[i].value > b[i].value { better := true; }
      } else {
        if a[i].value > b[i].value { noWorse := false; } else if a[i].value < b[i].value { better := true; }
      }
      i := i + 1;
    }
    DominatesInValues(a, b);
    return Ok(noWorse && better);
  }

  /** Dominance is a strict partial order on comparable vectors. */
  lemma DominanceIsStrictOrder(a: Vector, b: Vector, c: Vector)
    requires Comparable(a, b) && Comparable(b, c)
    ensures |a| == |b| == |c|
    ensures !Dominates(a, a)
    ensures Dominates(a, b) ==> !Dominates(b, a)
    ensures Dominates(a, b) && Dominates(b, c) ==> Dominates(a, c)
  {
    ComparableFacts(a, b);
    ComparableFacts(b, c);
    if Dominates(a, b) {
      var i :| 0 <= i < |a| && Better(a[i], b[i]);
      assert Dominates(b, c) ==> Better(a[i], c[i]);
    }
  }

  // ---------------------------------------------------------------- the front

  datatype Candidate = Candidate(id: string, vector: Vector)

  datatype Member = Member(index: nat, candidate: Candidate)

  predicate Uniform(candidates: seq<Candidate>) {
    forall i, j :: 0 <= i < |candidates| && 0 <= j < |candidates| ==> Comparable(candidates[i].vector, candidates[j].vector)
  }

  predicate Over(candidates: seq<Candidate>, i: nat, j: nat)
    requires i < |candidates| && j < |candidates|
  {
    |candidates[i].vector| == |candidates[j].vector| && Dominates(candidates[i].vector, candidates[j].vector)
  }

  predicate Undominated(candidates: seq<Candidate>, i: nat)
    requires i < |candidates|
  {
    forall j :: 0 <= j < |candidates| && j != i ==> !Over(candidates, j, i)
  }

  function FrontFrom(candidates: seq<Candidate>, from: nat): seq<Member>
    requires from <= |candidates|
    decreases |candidates| - from
  {
    if from == |candidates| then []
    else
      var rest := FrontFrom(candidates, from + 1);
      if Undominated(candidates, from) then [Member(from, candidates[from])] + rest else rest
  }

  /** `pareto_front`. */
  method ParetoFront(candidates: seq<Candidate>) returns (result: Result<seq<Member>>)
    ensures result.Ok? <==> candidates != [] && Uniform(candidates)
    ensures result.Ok? ==> result.value == FrontFrom(candidates, 0)
  {
    if candidates == [] { return Err(NoCandidates); }
    var names, directions := Names(candidates[0].vector), Directions(candidates[0].vector);
    var i := 0;
    while i < |candidates|
      invariant i <= |candidates|
      invariant forall k :: 0 <= k < i ==> Names(candidates[k].vector) == names && Directions(candidates[k].vector) == directions
    {
      if Names(candidates[i].vector) != names { return Err(NamesDiffer); }
      if Directions(candidates[i].vector) != directions { return Err(DirectionsDiffer); }
      i := i + 1;
    }
    var members: seq<Member> := [];
    i := |candidates|;
    while i > 0
      invariant 0 <= i <= |candidates| && members == FrontFrom(candidates, i)
    {
      i := i - 1;
      var dominated := false;
      var j := 0;
      while j < |candidates| && !dominated
        invariant j <= |candidates|
        invariant dominated ==> !Undominated(candidates, i)
        invariant !dominated ==> forall k :: 0 <= k < j && k != i ==> !Over(candidates, k, i)
      {
        if j != i {
          var over := CheckDominates(candidates[j].vector, candidates[i].vector);
          dominated := over.value;
          assert dominated <==> Over(candidates, j, i);
        }
        j := j + 1;
      }
      if !dominated { members := [Member(i, candidates[i])] + members; }
    }
    FrontAscends(candidates, 0);
    var prior: int := -1;
    i := 0;
    while i < |members|
      invariant 0 <= i <= |members| && prior == if i == 0 then -1 else members[i - 1].index
    {
      if members[i].index <= prior { return Err(NotAscending); }
      prior := members[i].index;
      i := i + 1;
    }
    return Ok(members);
  }

  lemma {:induction false} FrontMembers(candidates: seq<Candidate>, from: nat)
    requires from <= |candidates|
    ensures forall i :: 0 <= i < |FrontFrom(candidates, from)| ==>
              MemberOf(candidates, from, FrontFrom(candidates, from)[i])
    decreases |candidates| - from
  {
    if from < |candidates| {
      FrontMembers(candidates, from + 1);
    }
  }

  predicate MemberOf(candidates: seq<Candidate>, from: nat, m: Member) {
    from <= m.index < |candidates| && m.candidate == candidates[m.index] && Undominated(candidates, m.index)
  }

  predicate Ascending(members: seq<Member>) {
    forall i, j :: 0 <= i < j < |members| ==> members[i].index < members[j].index
  }

  lemma AscendingCons(first: Member, rest: seq<Member>)
    requires Ascending(rest) && forall i :: 0 <= i < |rest| ==> first.index < rest[i].index
    ensures Ascending([first] + rest)
  {
  }

  lemma {:induction false} FrontAscends(candidates: seq<Candidate>, from: nat)
    requires from <= |candidates|
    ensures Ascending(FrontFrom(candidates, from))
    decreases |candidates| - from
  {
    if from < |candidates| {
      FrontAscends(candidates, from + 1);
      FrontMembers(candidates, from + 1);
      var rest := FrontFrom(candidates, from + 1);
      assert forall i :: 0 <= i < |rest| ==> MemberOf(candidates, from + 1, rest[i]);
      if Undominated(candidates, from) {
        AscendingCons(Member(from, candidates[from]), rest);
      }
    }
  }

  lemma {:induction false} FrontHas(candidates: seq<Candidate>, from: nat, k: nat)
    requires from <= k < |candidates|
    ensures Member(k, candidates[k]) in FrontFrom(candidates, from) <==> Undominated(candidates, k)
    decreases |candidates| - from
  {
    if from < k {
      FrontHas(candidates, from + 1, k);
    } else {
      FrontMembers(candidates, k + 1);
      var rest := FrontFrom(candidates, k + 1);
      assert forall i :: 0 <= i < |rest| ==> MemberOf(candidates, k + 1, rest[i]);
    }
  }

  function Dominators(candidates: seq<Candidate>, i: nat): set<nat>
    requires i < |candidates|
  {
    set j: nat | j < |candidates| && Over(candidates, j, i)
  }

  lemma StrictOrderAt(candidates: seq<Candidate>, i: nat, j: nat, k: nat)
    requires Uniform(candidates) && i < |candidates| && j < |candidates| && k < |candidates|
    ensures !Over(candidates, i, i)
    ensures Over(candidates, i, j) && Over(candidates, j, k) ==> Over(candidates, i, k)
  {
    DominanceIsStrictOrder(candidates[i].vector, candidates[j].vector, candidates[k].vector);
  }

  /** From any candidate, following dominators ends in an undominated one that is the candidate itself or
      dominates it. */
  lemma {:induction false} ClimbToFront(candidates: seq<Candidate>, i: nat) returns (top: nat)
    requires Uniform(candidates) && i < |candidates|
    ensures top < |candidates| && Undominated(candidates, top)
    ensures top == i || Over(candidates, top, i)
    decreases |Dominators(candidates, i)|
  {
    if Undominated(candidates, i) {
      top := i;
    } else {
      var j :| 0 <= j < |candidates| && j != i && Over(candidates, j, i);
      forall k | k in Dominators(candidates, j)
        ensures k in Dominators(candidates, i)
      {
        StrictOrderAt(candidates, k, j, i);
      }
      StrictOrderAt(candidates, j, j, i);
      assert j in Dominators(candidates, i) && j !in Dominators(candidates, j);
      Smaller(Dominators(candidates, j), Dominators(candidates, i), j);
      top := ClimbToFront(candidates, j);
      StrictOrderAt(candidates, top, j, i);
    }
  }

  lemma Smaller(a: set<nat>, b: set<nat>, x: nat)
    requires a <= b && x in b && x !in a
    ensures |a| < |b|
  {
    assert b == a + (b - a);
    assert x in b - a;
  }

  /** The front is never empty, its members keep the original order and do not dominate each other, and every
      candidate left out is dominated by some member. */
  lemma FrontIsComplete(candidates: seq<Candidate>)
    requires candidates != [] && Uniform(candidates)
    ensures var front := FrontFrom(candidates, 0);
            && front != []
            && Ascending(front)
            && (forall i, j :: 0 <= i < |front| && 0 <= j < |front| ==>
                  front[i].index < |candidates| && front[j].index < |candidates|
                  && !Over(candidates, front[i].index, front[j].index))
            && (forall k :: 0 <= k < |candidates| && Member(k, candidates[k]) !in front ==>
                  exists i :: 0 <= i < |front| && front[i].index < |candidates| && Over(candidates, front[i].index, k))
  {
    var front := FrontFrom(candidates, 0);
    FrontAscends(candidates, 0);
    FrontMembers(candidates, 0);
    var top := ClimbToFront(candidates, 0);
    FrontHas(candidates, 0, top);
    forall i, j | 0 <= i < |front| && 0 <= j < |front|
      ensures front[i].index < |candidates| && front[j].index < |candidates|
              && !Over(candidates, front[i].index, front[j].index)
    {
      assert MemberOf(candidates, 0, front[i]) && MemberOf(candidates, 0, front[j]);
      StrictOrderAt(candidates, front[i].index, front[i].index, front[i].index);
    }
    forall k | 0 <= k < |candidates| && Member(k, candidates[k]) !in front
      ensures exists i :: 0 <= i < |front| && front[i].index < |candidates| && Over(candidates, front[i].index, k)
    {
      var up := ClimbToFront(candidates, k);
      FrontHas(candidates, 0, up);
      FrontHas(candidates, 0, k);
    }
  }
}
