/** The 0/1 integer program the scripts hand to the solver, written down as
    data instead of solver calls. Binary variables x[v][c] ("the vertex in
    row v takes the colour in column c") and y[c] ("column c is used"); the
    assignment equalities C1, the conflict inequalities C2, and the objective
    "minimise the sum of the y". Also the two builder loops that every script
    shares, and the model the DIMACS script and the fixed-offset script both
    build. */
module Ilp {
  import opened Common

  /** One constraint handed to the solver. */
  datatype Constraint =
      /** C1: the sum of x[row][col] over the (row, col) terms equals 1. */
    | AssignEq(terms: seq<(nat, nat)>)
      /** C2: x[row1][col] + x[row2][col] <= y[col]. */
    | Conflict(row1: nat, row2: nat, col: nat)

  /** x is `rows` lists of `cols` variables, y is `cols` variables; the
      objective minimises the sum of y[c] over the columns in `objective`. */
  datatype Model = Model(rows: nat, cols: nat, constraints: seq<Constraint>, objective: seq<nat>)

  /** `(a, b) in edges` for a list of integer tuples. */
  predicate HasEdge(edges: seq<seq<int>>, a: int, b: int) {
    [a, b] in edges
  }

  // ---------------------------------------------------------------------
  // Meaning of a model for the values the solver reports

  /** Every constraint mentions only variables that exist. */
  predicate InShape(rows: nat, cols: nat, con: Constraint) {
    match con
    case AssignEq(terms) => forall j :: 0 <= j < |terms| ==> terms[j].0 < rows && terms[j].1 < cols
    case Conflict(r1, r2, c) => r1 < rows && r2 < rows && c < cols
  }

  predicate WellFormed(m: Model) {
    && (forall i :: 0 <= i < |m.constraints| ==> InShape(m.rows, m.cols, m.constraints[i]))
    && (forall i :: 0 <= i < |m.objective| ==> m.objective[i] < m.cols)
  }

  /** The solver reports one value per variable a model with `rows` rows
      and `cols` columns declares. */
  predicate Fits(rows: nat, cols: nat, x: seq<seq<int>>, y: seq<int>) {
    |x| == rows && |y| == cols && forall v :: 0 <= v < |x| ==> |x[v]| == cols
  }

  predicate IsBinary(s: seq<int>) {
    forall i :: 0 <= i < |s| ==> s[i] == 0 || s[i] == 1
  }

  predicate Binary(x: seq<seq<int>>, y: seq<int>) {
    IsBinary(y) && forall v :: 0 <= v < |x| ==> IsBinary(x[v])
  }

  function Sum(s: seq<int>): int {
    if s == [] then 0 else Sum(s[..|s| - 1]) + s[|s| - 1]
  }

  /** The values of the x variables a C1 term list names. */
  function TermValues(x: seq<seq<int>>, terms: seq<(nat, nat)>): seq<int>
    requires forall j :: 0 <= j < |terms| ==> terms[j].0 < |x| && terms[j].1 < |x[terms[j].0]|
  {
    seq(|terms|, j requires 0 <= j < |terms| => x[terms[j].0][terms[j].1])
  }

  predicate Holds(con: Constraint, x: seq<seq<int>>, y: seq<int>)
    requires Fits(|x|, |y|, x, y) && InShape(|x|, |y|, con)
  {
    match con
    case AssignEq(terms) => Sum(TermValues(x, terms)) == 1
    case Conflict(r1, r2, c) => x[r1][c] + x[r2][c] <= y[c]
  }

  /** (x, y) is a feasible point of the model: the right shape, 0/1, and
      every constraint satisfied. */
  predicate Feasible(m: Model, x: seq<seq<int>>, y: seq<int>) {
    && WellFormed(m)
    && Fits(m.rows, m.cols, x, y)
    && Binary(x, y)
    && forall i :: 0 <= i < |m.constraints| ==> Holds(m.constraints[i], x, y)
  }

  function ObjectiveValue(m: Model, y: seq<int>): int
    requires WellFormed(m) && |y| == m.cols
  {
    Sum(seq(|m.objective|, i requires 0 <= i < |m.objective| => y[m.objective[i]]))
  }

  /** Exactly one entry is 1 and all the others are 0. */
  ghost predicate ExactlyOne(s: seq<int>) {
    exists c :: 0 <= c < |s| && s[c] == 1 && forall d :: 0 <= d < |s| && d != c ==> s[d] == 0
  }

  lemma {:induction false} SumZero(s: seq<int>)
    requires IsBinary(s)
    ensures Sum(s) >= 0
    ensures Sum(s) == 0 <==> forall i :: 0 <= i < |s| ==> s[i] == 0
  {
    if s != [] {
      var init := s[..|s| - 1];
      SumZero(init);
      assert forall i :: 0 <= i < |init| ==> s[i] == init[i];
    }
  }

  /** For 0/1 values, a sum equal to 1 means exactly one of them is 1: the
      C1 equality picks exactly one of its terms. */
  lemma {:induction false} SumOneExactlyOne(s: seq<int>)
    requires IsBinary(s)
    ensures Sum(s) == 1 <==> ExactlyOne(s)
  {
    if s == [] {
      assert !ExactlyOne(s);
    } else {
      var init := s[..|s| - 1];
      assert IsBinary(init);
      SumZero(init);
      SumOneExactlyOne(init);
      assert Sum(s) == Sum(init) + s[|s| - 1];
      if s[|s| - 1] == 1 {
        assert forall i :: 0 <= i < |init| ==> init[i] == s[i];
        ExactlyOneLastOne(s);
      } else {
        ExactlyOneLastZero(s);
      }
    }
  }

  /** When the last entry is 1, the others must all be 0. */
  lemma ExactlyOneLastOne(s: seq<int>)
    requires |s| > 0 && s[|s| - 1] == 1
    ensures ExactlyOne(s) <==> forall i :: 0 <= i < |s| - 1 ==> s[i] == 0
  {
    var last := |s| - 1;
    if forall i :: 0 <= i < last ==> s[i] == 0 {
      assert 0 <= last < |s| && s[last] == 1 && forall d :: 0 <= d < |s| && d != last ==> s[d] == 0;
    }
    if ExactlyOne(s) {
      var c :| 0 <= c < |s| && s[c] == 1 && forall d :: 0 <= d < |s| && d != c ==> s[d] == 0;
      assert c == last;
    }
  }

  /** When the last entry is 0, the 1 must be among the others. */
  lemma ExactlyOneLastZero(s: seq<int>)
    requires |s| > 0 && s[|s| - 1] == 0
    ensures ExactlyOne(s) <==> ExactlyOne(s[..|s| - 1])
  {
    var init := s[..|s| - 1];
    if ExactlyOne(init) {
      var c :| 0 <= c < |init| && init[c] == 1 && forall d :: 0 <= d < |init| && d != c ==> init[d] == 0;
      assert 0 <= c < |s| && s[c] == 1 && forall d :: 0 <= d < |s| && d != c ==> s[d] == 0;
    }
    if ExactlyOne(s) {
      var c :| 0 <= c < |s| && s[c] == 1 && forall d :: 0 <= d < |s| && d != c ==> s[d] == 0;
      assert 0 <= c < |init| && init[c] == 1 && forall d :: 0 <= d < |init| && d != c ==> init[d] == 0;
    }
  }

  /** A C2 constraint satisfied by 0/1 values keeps the two rows out of the
      same column, and marks the column used when either row takes it. */
  lemma ConflictSeparates(x: seq<seq<int>>, y: seq<int>, r1: nat, r2: nat, c: nat)
    requires Fits(|x|, |y|, x, y) && Binary(x, y) && r1 < |x| && r2 < |x| && c < |y|
    requires Holds(Conflict(r1, r2, c), x, y)
    ensures x[r1][c] + x[r2][c] <= 1
    ensures x[r1][c] == 1 || x[r2][c] == 1 ==> y[c] == 1
  {
  }

  // ---------------------------------------------------------------------
  // C1 over every column of every row (two of the scripts)

  /** The terms of `quicksum(x[v][c] for c in range(cols))`. */
  function RowTerms(v: nat, cols: nat): (t: seq<(nat, nat)>)
    ensures |t| == cols && forall c :: 0 <= c < cols ==> t[c] == (v, c)
  {
    seq(cols, (c: int) requires 0 <= c < cols => (v, c as nat))
  }

  /** `for v in range(rows): addConstr(quicksum(x[v][c] for c in range(cols)) == 1)` */
  method AddRowAssignments(rows: nat, cols: nat) returns (cs: seq<Constraint>)
    ensures |cs| == rows
    ensures forall v :: 0 <= v < rows ==> cs[v] == AssignEq(RowTerms(v, cols))
  {
    cs := [];
    var v := 0;
    while v < rows
      invariant 0 <= v <= rows
      invariant |cs| == v
      invariant forall w :: 0 <= w < v ==> cs[w] == AssignEq(RowTerms(w, cols))
    {
      cs := cs + [AssignEq(RowTerms(v, cols))];
      v := v + 1;
    }
  }

  /** A row's C1 equality sums exactly that row of x. */
  lemma RowTermValues(x: seq<seq<int>>, v: nat, cols: nat)
    requires v < |x| && |x[v]| == cols
    ensures TermValues(x, RowTerms(v, cols)) == x[v]
  {
  }

  // ---------------------------------------------------------------------
  // C2: the nested loop over row positions with a directed membership test

  /** `for c in range(k)`: the conflicts of rows r1 and r2 in columns below k. */
  function Block(r1: nat, r2: nat, k: nat): (cs: seq<Constraint>)
    ensures |cs| == k
    ensures forall i :: 0 <= i < k ==> cs[i] == Conflict(r1, r2, i)
  {
    if k == 0 then [] else Block(r1, r2, k - 1) + [Conflict(r1, r2, k - 1)]
  }

  /** `for v2 in range(k): if (r1, v2) in edges: for c in range(cols): ...` */
  function RowConflicts(r1: nat, cols: nat, edges: seq<seq<int>>, k: nat): (cs: seq<Constraint>)
    ensures forall i :: 0 <= i < |cs| ==>
      cs[i].Conflict? && cs[i].row1 == r1 && cs[i].row2 < k && cs[i].col < cols
      && HasEdge(edges, r1, cs[i].row2)
  {
    if k == 0 then []
    else
      var prev := RowConflicts(r1, cols, edges, k - 1);
      var more := if HasEdge(edges, r1, k - 1) then Block(r1, k - 1, cols) else [];
      prev + more
  }

  /** `for v1 in range(k): for v2 in range(rows): ...`: the C2 list after k
      passes of the outer loop. */
  function Conflicts(rows: nat, cols: nat, edges: seq<seq<int>>, k: nat): (cs: seq<Constraint>)
    ensures forall i :: 0 <= i < |cs| ==>
      cs[i].Conflict? && cs[i].row1 < k && cs[i].row2 < rows && cs[i].col < cols
      && HasEdge(edges, cs[i].row1, cs[i].row2)
  {
    if k == 0 then []
    else
      var prev := Conflicts(rows, cols, edges, k - 1);
      var more := RowConflicts(k - 1, cols, edges, rows);
      prev + more
  }

  /** Two lists without repeats that share no element join into one. */
  lemma NoRepeatsJoin<T>(a: seq<T>, b: seq<T>)
    requires NoRepeats(a) && NoRepeats(b)
    requires forall i, j :: 0 <= i < |a| && 0 <= j < |b| ==> a[i] != b[j]
    ensures NoRepeats(a + b)
  {
    var s := a + b;
    forall i, j | 0 <= i < j < |s|
      ensures s[i] != s[j]
    {
      if j < |a| {
        assert s[i] == a[i] && s[j] == a[j];
      } else if i < |a| {
        assert s[i] == a[i] && s[j] == b[j - |a|];
      } else {
        assert s[i] == b[i - |a|] && s[j] == b[j - |a|];
      }
    }
  }

  /** One row's pass emits no conflict twice. */
  lemma {:induction false} RowConflictsDistinct(r1: nat, cols: nat, edges: seq<seq<int>>, k: nat)
    ensures NoRepeats(RowConflicts(r1, cols, edges, k))
  {
    if k > 0 {
      RowConflictsDistinct(r1, cols, edges, k - 1);
      var prev := RowConflicts(r1, cols, edges, k - 1);
      var more := if HasEdge(edges, r1, k - 1) then Block(r1, k - 1, cols) else [];
      assert RowConflicts(r1, cols, edges, k) == prev + more;
      forall i, j | 0 <= i < |prev| && 0 <= j < |more|
        ensures prev[i] != more[j]
      {
        assert prev[i].row2 < k - 1 && more[j].row2 == k - 1;
      }
      NoRepeatsJoin(prev, more);
    }
  }

  /** The C2 loop emits no conflict twice, however often a tuple is
      repeated in the edge list. */
  lemma {:induction false} ConflictsDistinct(rows: nat, cols: nat, edges: seq<seq<int>>, k: nat)
    ensures NoRepeats(Conflicts(rows, cols, edges, k))
  {
    if k > 0 {
      ConflictsDistinct(rows, cols, edges, k - 1);
      RowConflictsDistinct(k - 1, cols, edges, rows);
      var prev := Conflicts(rows, cols, edges, k - 1);
      var more := RowConflicts(k - 1, cols, edges, rows);
      assert Conflicts(rows, cols, edges, k) == prev + more;
      forall i, j | 0 <= i < |prev| && 0 <= j < |more|
        ensures prev[i] != more[j]
      {
        assert prev[i].row1 < k - 1 && more[j].row1 == k - 1;
      }
      NoRepeatsJoin(prev, more);
    }
  }

  lemma {:induction false} RowConflictsComplete(r1: nat, cols: nat, edges: seq<seq<int>>, k: nat, r2: nat, c: nat)
    requires r2 < k && c < cols && HasEdge(edges, r1, r2)
    ensures Conflict(r1, r2, c) in RowConflicts(r1, cols, edges, k)
  {
    if r2 < k - 1 {
      RowConflictsComplete(r1, cols, edges, k - 1, r2, c);
    } else {
      assert Block(r1, r2, cols)[c] == Conflict(r1, r2, c);
    }
  }

  /** Which conflicts the C2 loop emits: one per column for every ordered
      pair of row positions whose exact tuple is in the edge list, and no
      other; each at most once however often the tuple is repeated. */
  lemma {:induction false} ConflictsExactly(rows: nat, cols: nat, edges: seq<seq<int>>, r1: nat, r2: nat, c: nat)
    ensures Conflict(r1, r2, c) in Conflicts(rows, cols, edges, rows)
      <==> r1 < rows && r2 < rows && c < cols && HasEdge(edges, r1, r2)
  {
    if r1 < rows && r2 < rows && c < cols && HasEdge(edges, r1, r2) {
      ConflictsPrefixComplete(rows, cols, edges, rows, r1, r2, c);
    }
  }

  lemma {:induction false} ConflictsPrefixComplete(rows: nat, cols: nat, edges: seq<seq<int>>, k: nat, r1: nat, r2: nat, c: nat)
    requires r1 < k && r2 < rows && c < cols && HasEdge(edges, r1, r2)
    ensures Conflict(r1, r2, c) in Conflicts(rows, cols, edges, k)
  {
    if r1 < k - 1 {
      ConflictsPrefixComplete(rows, cols, edges, k - 1, r1, r2, c);
    } else {
      RowConflictsComplete(r1, cols, edges, rows, r2, c);
    }
  }

  /** The C2 loop as the scripts write it: every ordered pair of row
      positions, tested with `(v1, v2) in edges`. */
  method AddConflicts(rows: nat, cols: nat, edges: seq<seq<int>>) returns (cs: seq<Constraint>)
    ensures cs == Conflicts(rows, cols, edges, rows)
  {
    cs := [];
    var v1 := 0;
    while v1 < rows
      invariant 0 <= v1 <= rows
      invariant cs == Conflicts(rows, cols, edges, v1)
    {
      cs := AddRowConflicts(cs, v1, rows, cols, edges);
      v1 := v1 + 1;
    }
  }

  /** One pass of the outer loop: `for v2 in range(rows)` for the row v1. */
  method AddRowConflicts(done: seq<Constraint>, v1: nat, rows: nat, cols: nat, edges: seq<seq<int>>)
    returns (cs: seq<Constraint>)
    ensures cs == done + RowConflicts(v1, cols, edges, rows)
  {
    cs := done;
    var v2 := 0;
    while v2 < rows
      invariant 0 <= v2 <= rows
      invariant cs == done + RowConflicts(v1, cols, edges, v2)
    {
      ghost var more := if HasEdge(edges, v1, v2) then Block(v1, v2, cols) else [];
      assert RowConflicts(v1, cols, edges, v2 + 1) == RowConflicts(v1, cols, edges, v2) + more;
      if [v1, v2] in edges {
        cs := AddBlock(cs, v1, v2, cols);
      }
      AppendAssoc(done, RowConflicts(v1, cols, edges, v2), more);
      v2 := v2 + 1;
    }
  }

  /** `for c in range(cols): model.addConstr(x[v1, c] + x[v2, c] <= y[c])` */
  method AddBlock(done: seq<Constraint>, v1: nat, v2: nat, cols: nat) returns (cs: seq<Constraint>)
    ensures cs == done + Block(v1, v2, cols)
  {
    cs := done;
    var c := 0;
    while c < cols
      invariant 0 <= c <= cols
      invariant cs == done + Block(v1, v2, c)
    {
      AppendAssoc(done, Block(v1, v2, c), [Conflict(v1, v2, c)]);
      cs := cs + [Conflict(v1, v2, c)];
      c := c + 1;
    }
  }

  // ---------------------------------------------------------------------
  // The objective, and the models the scripts build

  /** The columns of `quicksum(y[c] for c in range(cols))`. */
  function AllColumns(cols: nat): (r: seq<nat>)
    ensures |r| == cols && forall c :: 0 <= c < cols ==> r[c] == c
  {
    seq(cols, (c: int) requires 0 <= c < cols => c as nat)
  }

  /** The shape of the model in all three scripts: the C1 equalities, then
      what the C2 loop emits, and the objective over every y. */
  function ModelWith(rows: nat, cols: nat, c1: seq<Constraint>, edges: seq<seq<int>>): Model {
    Model(rows, cols, c1 + Conflicts(rows, cols, edges, rows), AllColumns(cols))
  }

  /** The objective of the shared shape is the sum of every y. */
  lemma ObjectiveIsSum(rows: nat, cols: nat, c1: seq<Constraint>, edges: seq<seq<int>>, y: seq<int>)
    requires WellFormed(ModelWith(rows, cols, c1, edges)) && |y| == cols
    ensures ObjectiveValue(ModelWith(rows, cols, c1, edges), y) == Sum(y)
  {
    var m := ModelWith(rows, cols, c1, edges);
    assert seq(|m.objective|, i requires 0 <= i < |m.objective| => y[m.objective[i]]) == y;
  }

  /** Every C2 inequality the loop emits holds. */
  ghost predicate ConflictsHold(rows: nat, cols: nat, edges: seq<seq<int>>, x: seq<seq<int>>, y: seq<int>)
    requires Fits(rows, cols, x, y)
  {
    forall a, b, c :: 0 <= a < rows && 0 <= b < rows && 0 <= c < cols && HasEdge(edges, a, b) ==>
      x[a][c] + x[b][c] <= y[c]
  }

  ghost predicate C1Holds(c1: seq<Constraint>, x: seq<seq<int>>, y: seq<int>)
    requires Fits(|x|, |y|, x, y) && forall i :: 0 <= i < |c1| ==> InShape(|x|, |y|, c1[i])
  {
    forall i :: 0 <= i < |c1| ==> Holds(c1[i], x, y)
  }

  lemma ModelWithWellFormed(rows: nat, cols: nat, c1: seq<Constraint>, edges: seq<seq<int>>)
    requires forall i :: 0 <= i < |c1| ==> InShape(rows, cols, c1[i])
    ensures WellFormed(ModelWith(rows, cols, c1, edges))
  {
    var m := ModelWith(rows, cols, c1, edges);
    forall i | 0 <= i < |m.constraints|
      ensures InShape(rows, cols, m.constraints[i])
    {
      if i >= |c1| {
        assert m.constraints[i] == Conflicts(rows, cols, edges, rows)[i - |c1|];
      }
    }
  }

  lemma FeasibleSplits(rows: nat, cols: nat, c1: seq<Constraint>, edges: seq<seq<int>>, x: seq<seq<int>>, y: seq<int>)
    requires Feasible(ModelWith(rows, cols, c1, edges), x, y)
    ensures forall i :: 0 <= i < |c1| ==> InShape(rows, cols, c1[i])
    ensures C1Holds(c1, x, y) && ConflictsHold(rows, cols, edges, x, y)
  {
    var m := ModelWith(rows, cols, c1, edges);
    var c2 := Conflicts(rows, cols, edges, rows);
    forall i | 0 <= i < |c1|
      ensures InShape(rows, cols, c1[i]) && Holds(c1[i], x, y)
    {
      assert m.constraints[i] == c1[i];
    }
    forall a, b, c | 0 <= a < rows && 0 <= b < rows && 0 <= c < cols && HasEdge(edges, a, b)
      ensures x[a][c] + x[b][c] <= y[c]
    {
      ConflictsExactly(rows, cols, edges, a, b, c);
      var i :| 0 <= i < |c2| && c2[i] == Conflict(a, b, c);
      assert m.constraints[|c1| + i] == Conflict(a, b, c);
    }
  }

  lemma FeasibleJoins(rows: nat, cols: nat, c1: seq<Constraint>, edges: seq<seq<int>>, x: seq<seq<int>>, y: seq<int>)
    requires forall i :: 0 <= i < |c1| ==> InShape(rows, cols, c1[i])
    requires Fits(rows, cols, x, y) && Binary(x, y)
    requires C1Holds(c1, x, y) && ConflictsHold(rows, cols, edges, x, y)
    ensures Feasible(ModelWith(rows, cols, c1, edges), x, y)
  {
    var m := ModelWith(rows, cols, c1, edges);
    var c2 := Conflicts(rows, cols, edges, rows);
    ModelWithWellFormed(rows, cols, c1, edges);
    forall i | 0 <= i < |m.constraints|
      ensures Holds(m.constraints[i], x, y)
    {
      if i >= |c1| {
        assert m.constraints[i] == c2[i - |c1|];
      } else {
        assert m.constraints[i] == c1[i];
      }
    }
  }

  /** A point is feasible exactly when it is 0/1 of the declared shape,
      satisfies the C1 equalities it was given, and every C2 inequality the
      loop emits. */
  lemma ModelWithFeasibleIff(rows: nat, cols: nat, c1: seq<Constraint>, edges: seq<seq<int>>, x: seq<seq<int>>, y: seq<int>)
    requires forall i :: 0 <= i < |c1| ==> InShape(rows, cols, c1[i])
    ensures Feasible(ModelWith(rows, cols, c1, edges), x, y) <==>
      && Fits(rows, cols, x, y) && Binary(x, y)
      && C1Holds(c1, x, y) && ConflictsHold(rows, cols, edges, x, y)
  {
    if Feasible(ModelWith(rows, cols, c1, edges), x, y) {
      FeasibleSplits(rows, cols, c1, edges, x, y);
    }
    if Fits(rows, cols, x, y) && Binary(x, y) && C1Holds(c1, x, y) && ConflictsHold(rows, cols, edges, x, y) {
      FeasibleJoins(rows, cols, c1, edges, x, y);
    }
  }

  /** C1 of the DIMACS script and of the fixed-offset script: one equality
      per row over every column. */
  function AssignAll(rows: nat, cols: nat): (cs: seq<Constraint>)
    ensures forall i :: 0 <= i < |cs| ==> InShape(rows, cols, cs[i])
  {
    seq(rows, (v: int) requires 0 <= v < rows => AssignEq(RowTerms(v as nat, cols)))
  }

  /** The model the DIMACS script and the fixed-offset script build. */
  function StandardModel(rows: nat, cols: nat, edges: seq<seq<int>>): Model {
    ModelWith(rows, cols, AssignAll(rows, cols), edges)
  }

  method BuildStandard(rows: nat, cols: nat, edges: seq<seq<int>>) returns (m: Model)
    ensures m == StandardModel(rows, cols, edges)
    ensures WellFormed(m)
  {
    var c1 := AddRowAssignments(rows, cols);
    var c2 := AddConflicts(rows, cols, edges);
    m := Model(rows, cols, c1 + c2, AllColumns(cols));
    assert c1 == AssignAll(rows, cols);
    ModelWithWellFormed(rows, cols, c1, edges);
  }

  /** The feasible points of the standard model, stated without it: 0/1
      values of the declared shape where every row holds exactly one 1 and
      every C2 inequality the loop emits holds. */
  ghost predicate StandardFeasible(rows: nat, cols: nat, edges: seq<seq<int>>, x: seq<seq<int>>, y: seq<int>) {
    && Fits(rows, cols, x, y)
    && Binary(x, y)
    && (forall v :: 0 <= v < rows ==> ExactlyOne(x[v]))
    && ConflictsHold(rows, cols, edges, x, y)
  }

  lemma StandardFeasibleIff(rows: nat, cols: nat, edges: seq<seq<int>>, x: seq<seq<int>>, y: seq<int>)
    ensures Feasible(StandardModel(rows, cols, edges), x, y) <==> StandardFeasible(rows, cols, edges, x, y)
  {
    var c1 := AssignAll(rows, cols);
    ModelWithFeasibleIff(rows, cols, c1, edges, x, y);
    if Fits(rows, cols, x, y) && Binary(x, y) {
      forall v | 0 <= v < rows
        ensures Holds(c1[v], x, y) <==> ExactlyOne(x[v])
      {
        RowTermValues(x, v, cols);
        SumOneExactlyOne(x[v]);
      }
    }
  }

  /** Every tuple of the list together with its reverse. */
  function WithReverses(edges: seq<seq<int>>): (r: seq<seq<int>>)
    ensures forall a, b :: HasEdge(r, a, b) <==> HasEdge(edges, a, b) || HasEdge(edges, b, a)
  {
    var flipped := seq(|edges|, i requires 0 <= i < |edges| =>
      if |edges[i]| == 2 then [edges[i][1], edges[i][0]] else edges[i]);
    assert forall a, b :: [a, b] in flipped <==> [b, a] in edges by {
      forall a, b
        ensures [a, b] in flipped <==> [b, a] in edges
      {
        if [a, b] in flipped {
          var i :| 0 <= i < |flipped| && flipped[i] == [a, b];
          assert edges[i] == [b, a];
        }
        if [b, a] in edges {
          var i :| 0 <= i < |edges| && edges[i] == [b, a];
          assert flipped[i] == [a, b];
        }
      }
    }
    edges + flipped
  }

  /** Although `(v1, v2) in edges` looks only one way, both orders of every
      pair are visited and C2 is symmetric in its two rows: adding every
      reversed tuple to the edge list changes no feasible point, whatever
      the C1 equalities are. */
  lemma OrientationIrrelevant(rows: nat, cols: nat, c1: seq<Constraint>, edges: seq<seq<int>>, x: seq<seq<int>>, y: seq<int>)
    requires forall i :: 0 <= i < |c1| ==> InShape(rows, cols, c1[i])
    ensures Feasible(ModelWith(rows, cols, c1, edges), x, y)
        <==> Feasible(ModelWith(rows, cols, c1, WithReverses(edges)), x, y)
  {
    ModelWithFeasibleIff(rows, cols, c1, edges, x, y);
    ModelWithFeasibleIff(rows, cols, c1, WithReverses(edges), x, y);
    if Fits(rows, cols, x, y) && ConflictsHold(rows, cols, edges, x, y) {
      forall a, b, c | 0 <= a < rows && 0 <= b < rows && 0 <= c < cols && HasEdge(WithReverses(edges), a, b)
        ensures x[a][c] + x[b][c] <= y[c]
      {
        if !HasEdge(edges, a, b) {
          assert HasEdge(edges, b, a);
          assert x[b][c] + x[a][c] <= y[c];
        }
      }
    }
  }

  /** Two edge lists that agree on every pair of row positions give the
      same C2 row by row. */
  lemma {:induction false} RowConflictsAgree(r1: nat, cols: nat, e1: seq<seq<int>>, e2: seq<seq<int>>, rows: nat, k: nat)
    requires r1 < rows && k <= rows
    requires forall a, b :: 0 <= a < rows && 0 <= b < rows ==> (HasEdge(e1, a, b) <==> HasEdge(e2, a, b))
    ensures RowConflicts(r1, cols, e1, k) == RowConflicts(r1, cols, e2, k)
  {
    if k > 0 {
      RowConflictsAgree(r1, cols, e1, e2, rows, k - 1);
    }
  }

  /** C2 reads the edge list only at pairs of row positions: tuples with an
      endpoint outside 0 .. rows-1 produce nothing. */
  lemma ConflictsAgree(rows: nat, cols: nat, e1: seq<seq<int>>, e2: seq<seq<int>>)
    requires forall a, b :: 0 <= a < rows && 0 <= b < rows ==> (HasEdge(e1, a, b) <==> HasEdge(e2, a, b))
    ensures Conflicts(rows, cols, e1, rows) == Conflicts(rows, cols, e2, rows)
  {
    forall r | 0 <= r < rows
      ensures RowConflicts(r, cols, e1, rows) == RowConflicts(r, cols, e2, rows)
    {
      RowConflictsAgree(r, cols, e1, e2, rows, rows);
    }
    RowsAgree(rows, cols, e1, e2, rows);
  }

  /** Edge lists giving the same C2 for every row give the same C2. */
  lemma {:induction false} RowsAgree(rows: nat, cols: nat, e1: seq<seq<int>>, e2: seq<seq<int>>, k: nat)
    requires k <= rows
    requires forall r :: 0 <= r < rows ==> RowConflicts(r, cols, e1, rows) == RowConflicts(r, cols, e2, rows)
    ensures Conflicts(rows, cols, e1, k) == Conflicts(rows, cols, e2, k)
  {
    if k > 0 {
      RowsAgree(rows, cols, e1, e2, k - 1);
    }
  }

  /** Appending a tuple that names a position outside the rows leaves the
      whole model unchanged. */
  lemma OutOfRangeEdgeIgnored(rows: nat, cols: nat, c1: seq<Constraint>, edges: seq<seq<int>>, a: int, b: int)
    requires !(0 <= a < rows && 0 <= b < rows)
    ensures ModelWith(rows, cols, c1, edges + [[a, b]]) == ModelWith(rows, cols, c1, edges)
  {
    forall a', b' | 0 <= a' < rows && 0 <= b' < rows
      ensures HasEdge(edges + [[a, b]], a', b') <==> HasEdge(edges, a', b')
    {
      assert [a', b'] != [a, b];
    }
    ConflictsAgree(rows, cols, edges + [[a, b]], edges);
  }

  /** Only C2 ties x to y, so a row whose vertex is in no triggered pair
      never forces a y: without edges, putting every row in column 0 and
      using no y at all is feasible for the standard model, with objective
      0, although every row is assigned. */
  lemma EdgelessObjectiveZero(rows: nat, cols: nat, x: seq<seq<int>>, y: seq<int>)
    requires cols > 0
    requires x == seq(rows, v => seq(cols, c => if c == 0 then 1 else 0))
    requires y == seq(cols, c => 0)
    ensures Feasible(StandardModel(rows, cols, []), x, y)
    ensures ObjectiveValue(StandardModel(rows, cols, []), y) == 0
  {
    forall v | 0 <= v < rows
      ensures ExactlyOne(x[v])
    {
      assert x[v][0] == 1;
    }
    StandardFeasibleIff(rows, cols, [], x, y);
    SumZero(y);
    ObjectiveIsSum(rows, cols, AssignAll(rows, cols), [], y);
  }
}
