/** The DIMACS script, for one file of its batch. The file is read in two
    passes over its lines:

      1. every line starting with `p` contributes its third word; the first
         of these, through int(), is the vertex count n, and both the
         vertices and the colours are the labels 1 .. n;
      2. every line starting with `e` gives an edge tuple.

    The model is the standard one: C1 puts exactly one 1 in every row, C2
    is the shared loop over row positions 0 .. n-1 (while the edge tuples
    hold labels 1 .. n), and the objective sums every y. */
module Dimacs {
  import opened Common
  import opened PyBuiltins
  import opened OrderedDict
  import opened LineScan
  import opened EdgeLines
  import opened Ilp
  import opened Extraction

  // ---------------------------------------------------------------------
  // Pass 1: the vertex count

  predicate IsProblemLine(line: string) {
    StartsWith(line, 'p')
  }

  /** `line.split()[2]`: an IndexError on a line of fewer than three words. */
  function ThirdWord(line: string): Result<string, Failure> {
    var words := SplitWs(line);
    if |words| < 3 then Err(IndexError) else Ok(words[2])
  }

  /** `int(no_of_vertices[0])` after the first pass. */
  function VertexCount(lines: seq<string>): Result<int, Failure> {
    var words := Collect(lines, IsProblemLine, ThirdWord);
    if words.Err? then Err(words.error)
    else if |words.value| == 0 then Err(IndexError)
    else
      var n := ParseInt(words.value[0]);
      if n.None? then Err(ValueError(words.value[0])) else Ok(n.value)
  }

  /** Line i is the first `p` line of the file. */
  predicate FirstProblemLine(lines: seq<string>, i: int) {
    && 0 <= i < |lines| && IsProblemLine(lines[i])
    && forall j :: 0 <= j < i ==> !IsProblemLine(lines[j])
  }

  /** Every `p` line has at least three words. */
  predicate ProblemLinesLongEnough(lines: seq<string>) {
    forall i :: 0 <= i < |lines| && IsProblemLine(lines[i]) ==> |SplitWs(lines[i])| >= 3
  }

  /** The count is the integer value of the third word of the first `p`
      line. It is read exactly when every `p` line has three words (even
      those after the first), some `p` line exists and int() accepts that
      word; a word int() rejects is the ValueError, and a short `p` line or
      no `p` line at all is the IndexError. */
  lemma VertexCountFirst(lines: seq<string>)
    ensures VertexCount(lines).Ok? <==>
      && ProblemLinesLongEnough(lines)
      && exists i :: FirstProblemLine(lines, i) && |SplitWs(lines[i])| >= 3 && ParseInt(SplitWs(lines[i])[2]).Some?
    ensures VertexCount(lines).Ok? ==>
      exists i ::
        && FirstProblemLine(lines, i)
        && |SplitWs(lines[i])| >= 3 && ParseInt(SplitWs(lines[i])[2]) == Some(VertexCount(lines).value)
    ensures forall i ::
      (&& FirstProblemLine(lines, i) && ProblemLinesLongEnough(lines)
       && |SplitWs(lines[i])| >= 3 && ParseInt(SplitWs(lines[i])[2]).None?)
      ==> VertexCount(lines) == Err(ValueError(SplitWs(lines[i])[2]))
    ensures !ProblemLinesLongEnough(lines) ==> VertexCount(lines) == Err(IndexError)
    ensures (forall i :: 0 <= i < |lines| ==> !IsProblemLine(lines[i])) ==> VertexCount(lines) == Err(IndexError)
  {
    var words := Collect(lines, IsProblemLine, ThirdWord);
    var picked := Selected(lines, IsProblemLine);
    CollectOk(lines, IsProblemLine, ThirdWord);
    SelectedFirst(lines, IsProblemLine);
    if words.Err? {
      CollectErr(lines, IsProblemLine, ThirdWord);
    }
    if words.Ok? && |picked| > 0 {
      var i0 :| FirstProblemLine(lines, i0) && picked[0] == lines[i0];
      assert ThirdWord(picked[0]) == Ok(words.value[0]);
      forall i | FirstProblemLine(lines, i)
        ensures i == i0
      {
        assert FirstProblemLine(lines, i0);
        assert 0 <= i0 < |lines|;
      }
    }
  }

  // ---------------------------------------------------------------------
  // The instance

  datatype Instance = Instance(vertices: seq<int>, colors: seq<int>, edges: seq<seq<int>>)

  /** Both passes, failing with the first failure in the order the script
      meets them. */
  function ParseSpec(lines: seq<string>): Result<Instance, Failure> {
    var n := VertexCount(lines);
    if n.Err? then Err(n.error)
    else
      var edges := EdgesOf(lines);
      if edges.Err? then Err(edges.error)
      else Ok(Instance(Range(1, n.value + 1), Range(1, n.value + 1), edges.value))
  }

  method Parse(lines: seq<string>) returns (r: Result<Instance, Failure>)
    ensures r == ParseSpec(lines)
  {
    var words := Scan(lines, IsProblemLine, ThirdWord);
    if words.Err? {
      return Err(words.error);
    }
    if |words.value| == 0 {
      return Err(IndexError);
    }
    var n := ParseInt(words.value[0]);
    if n.None? {
      return Err(ValueError(words.value[0]));
    }
    var vertices := Range(1, n.value + 1);
    var colors := Range(1, n.value + 1);
    var edges := ReadEdges(lines);
    if edges.Err? {
      return Err(edges.error);
    }
    return Ok(Instance(vertices, colors, edges.value));
  }

  /** Vertices and colours are the same labels 1 .. n: the label of
      position i is i + 1. */
  lemma InstanceShape(lines: seq<string>)
    ensures ParseSpec(lines).Ok? ==> VertexCount(lines).Ok? && EdgesOf(lines).Ok?
    ensures ParseSpec(lines).Ok? ==>
      var inst, n := ParseSpec(lines).value, VertexCount(lines).value;
      && inst.vertices == inst.colors
      && |inst.vertices| == (if n > 0 then n else 0)
      && (forall i :: 0 <= i < |inst.vertices| ==> inst.vertices[i] == i + 1)
      && inst.edges == EdgesOf(lines).value
  {
  }

  // ---------------------------------------------------------------------
  // The model

  /** Variables, C1 over every row, C2 and the objective: the standard
      model with one row per vertex and one column per colour. */
  method BuildModel(inst: Instance) returns (m: Model)
    ensures m == StandardModel(|inst.vertices|, |inst.colors|, inst.edges)
    ensures WellFormed(m) && |m.constraints| >= |inst.vertices| && |m.objective| == |inst.colors|
  {
    m := BuildStandard(|inst.vertices|, |inst.colors|, inst.edges);
  }

  /** C2 compares positions with tuples of labels: for a pair (a, b) of
      positions below n, the tuple (a, b) separates the vertices labelled
      a + 1 and b + 1, which the report never puts under one colour. */
  lemma EdgeSeparatesNextLabels(n: nat, edges: seq<seq<int>>, x: seq<seq<int>>, y: seq<int>, a: nat, b: nat, c: nat)
    requires Feasible(StandardModel(n, n, edges), x, y)
    requires a < n && b < n && c < n && HasEdge(edges, a, b)
    ensures var vc := VertexColorOf(Range(1, n + 1), Range(1, n + 1), x);
      !(a + 1 in GetOr(vc, c + 1) && b + 1 in GetOr(vc, c + 1))
  {
    var labels := Range(1, n + 1);
    StandardFeasibleIff(n, n, edges, x, y);
    assert x[a][c] + x[b][c] <= y[c];
    ConflictSeparates(x, y, a, b, c);
    if a != b {
      VertexColorMembers(labels, labels, x, c, a + 1);
      VertexColorMembers(labels, labels, x, c, b + 1);
    }
  }

  /** A tuple naming the label n (or anything that is not a position)
      adds no constraint: the model is the one without it. */
  lemma LastLabelIgnored(n: nat, edges: seq<seq<int>>, a: int)
    ensures StandardModel(n, n, edges + [[a, n]]) == StandardModel(n, n, edges)
    ensures StandardModel(n, n, edges + [[n, a]]) == StandardModel(n, n, edges)
  {
    OutOfRangeEdgeIgnored(n, n, AssignAll(n, n), edges, a, n);
    OutOfRangeEdgeIgnored(n, n, AssignAll(n, n), edges, n, a);
  }

  /** The triangle 1-2, 2-3, 1-3 needs three colours, but with n = 3 only
      the tuple (1, 2) falls on positions: the point giving labels 1 and 2
      the same colour and label 3 another is feasible with objective 2, and
      the report puts the endpoints 1 and 2 of an edge under one colour. */
  lemma TriangleUnderConstrained(n: nat, edges: seq<seq<int>>, x: seq<seq<int>>, y: seq<int>)
    requires n == 3 && edges == [[1, 2], [2, 3], [1, 3]]
    requires x == [[1, 0, 0], [1, 0, 0], [0, 1, 0]] && y == [1, 1, 0]
    ensures Feasible(StandardModel(n, n, edges), x, y)
    ensures ObjectiveValue(StandardModel(n, n, edges), y) == 2
    ensures var vc := VertexColorOf(Range(1, n + 1), Range(1, n + 1), x);
      1 in GetOr(vc, 1) && 2 in GetOr(vc, 1)
  {
    TriangleTuples(n, edges);
    TriangleFeasible(n, [[1, 2]], x, y);
    TriangleReport(Range(1, n + 1), x);
  }

  /** Of the triangle's tuples only (1, 2) lies on positions 0 .. 2. */
  lemma TriangleTuples(n: nat, edges: seq<seq<int>>)
    requires n == 3 && edges == [[1, 2], [2, 3], [1, 3]]
    ensures StandardModel(n, n, edges) == StandardModel(n, n, [[1, 2]])
  {
    var one: seq<seq<int>> := [[1, 2]];
    var two := one + [[2, n]];
    assert edges == two + [[1, n]];
    LastLabelIgnored(n, one, 2);
    LastLabelIgnored(n, two, 1);
  }

  lemma TriangleFeasible(n: nat, edges: seq<seq<int>>, x: seq<seq<int>>, y: seq<int>)
    requires n == 3 && edges == [[1, 2]]
    requires x == [[1, 0, 0], [1, 0, 0], [0, 1, 0]] && y == [1, 1, 0]
    ensures Feasible(StandardModel(n, n, edges), x, y)
    ensures ObjectiveValue(StandardModel(n, n, edges), y) == 2
  {
    assert Fits(n, n, x, y) && Binary(x, y);
    forall v | 0 <= v < n
      ensures ExactlyOne(x[v])
    {
      var c := if v < 2 then 0 else 1;
      assert x[v][c] == 1 && forall d :: 0 <= d < n && d != c ==> x[v][d] == 0;
    }
    forall a, b, c | 0 <= a < n && 0 <= b < n && 0 <= c < n && HasEdge(edges, a, b)
      ensures x[a][c] + x[b][c] <= y[c]
    {
      assert a == 1 && b == 2;
    }
    StandardFeasibleIff(n, n, edges, x, y);
    ObjectiveIsSum(n, n, AssignAll(n, n), edges, y);
    assert y == [1, 1] + [0];
    assert Sum([1, 1]) == 2;
  }

  lemma TriangleReport(labels: seq<int>, x: seq<seq<int>>)
    requires labels == Range(1, 4)
    requires x == [[1, 0, 0], [1, 0, 0], [0, 1, 0]]
    ensures 1 in GetOr(VertexColorOf(labels, labels, x), 1)
    ensures 2 in GetOr(VertexColorOf(labels, labels, x), 1)
  {
    assert labels[0] == 1 && labels[1] == 2;
    assert x[0][0] == 1 && x[1][0] == 1;
    VertexColorMembers(labels, labels, x, 0, 1);
    VertexColorMembers(labels, labels, x, 0, 2);
  }

  /** In a feasible point every vertex label appears in the report, under
      one colour only. */
  lemma EveryLabelOnce(n: nat, edges: seq<seq<int>>, x: seq<seq<int>>, y: seq<int>, v: nat)
    requires Feasible(StandardModel(n, n, edges), x, y) && v < n
    ensures var vc := VertexColorOf(Range(1, n + 1), Range(1, n + 1), x);
      exists c :: 0 <= c < n && x[v][c] == 1 && v + 1 in GetOr(vc, c + 1)
        && forall lab :: v + 1 in GetOr(vc, lab) ==> lab == c + 1
  {
    var labels := Range(1, n + 1);
    var vc := VertexColorOf(labels, labels, x);
    StandardFeasibleIff(n, n, edges, x, y);
    AssignedRowReported(labels, labels, x, v);
    var c :| 0 <= c < n && x[v][c] == 1 && v + 1 in GetOr(vc, labels[c]);
    forall lab | v + 1 in GetOr(vc, lab)
      ensures lab == c + 1
    {
      if lab in labels {
        var d :| 0 <= d < n && labels[d] == lab;
        ReportedOnce(labels, labels, x, v, c, d);
      } else {
        GroupRowsOthers(labels, labels, x, n, lab);
      }
    }
  }
}
