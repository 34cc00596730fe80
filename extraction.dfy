/** Reading a solution back, as all three scripts do once the solver reports
    an optimum:

      colors_used = [colors[c] for each c in range(len(colors)) with y[c] == 1]
      vertex_color: for v in rows, for c in columns, if x[v][c] == 1,
                    append vertices[v] to the list under colors[c]

    The solver's values are taken as integers; the scripts compare them with
    `== 1`. */
module Extraction {
  import opened Common
  import opened OrderedDict
  import opened Ilp

  // ---------------------------------------------------------------------
  // colors_used

  /** The labels of the columns below k whose y is 1, in column order. */
  function UsedPrefix(colors: seq<int>, y: seq<int>, k: nat): seq<int>
    requires k <= |colors| && k <= |y|
  {
    if k == 0 then []
    else UsedPrefix(colors, y, k - 1) + (if y[k - 1] == 1 then [colors[k - 1]] else [])
  }

  function UsedColors(colors: seq<int>, y: seq<int>): seq<int>
    requires |y| == |colors|
  {
    UsedPrefix(colors, y, |colors|)
  }

  /** The colors_used loop. */
  method ColorsUsed(colors: seq<int>, y: seq<int>) returns (used: seq<int>)
    requires |y| == |colors|
    ensures used == UsedColors(colors, y)
  {
    used := [];
    var c := 0;
    while c < |colors|
      invariant 0 <= c <= |colors|
      invariant used == UsedPrefix(colors, y, c)
    {
      if y[c] == 1 {
        used := used + [colors[c]];
      }
      c := c + 1;
    }
  }

  lemma {:induction false} UsedPrefixMembers(colors: seq<int>, y: seq<int>, k: nat, lab: int)
    requires k <= |colors| && k <= |y|
    ensures lab in UsedPrefix(colors, y, k) <==> exists c :: 0 <= c < k && y[c] == 1 && colors[c] == lab
  {
    if k > 0 {
      UsedPrefixMembers(colors, y, k - 1, lab);
    }
  }

  /** A label is reported as used exactly when some column carrying it has y = 1. */
  lemma UsedColorsMembers(colors: seq<int>, y: seq<int>, lab: int)
    requires |y| == |colors|
    ensures lab in UsedColors(colors, y) <==> exists c :: 0 <= c < |colors| && y[c] == 1 && colors[c] == lab
  {
    UsedPrefixMembers(colors, y, |colors|, lab);
  }

  lemma {:induction false} UsedPrefixOrdered(colors: seq<int>, y: seq<int>, k: nat)
    requires k <= |colors| && k <= |y|
    requires forall i, j :: 0 <= i < j < |colors| ==> colors[i] < colors[j]
    ensures forall i :: 0 <= i < |UsedPrefix(colors, y, k)| ==> UsedPrefix(colors, y, k)[i] in colors[..k]
    ensures forall i, j :: 0 <= i < j < |UsedPrefix(colors, y, k)| ==>
      UsedPrefix(colors, y, k)[i] < UsedPrefix(colors, y, k)[j]
  {
    if k > 0 {
      UsedPrefixOrdered(colors, y, k - 1);
      var prev := UsedPrefix(colors, y, k - 1);
      assert forall i :: 0 <= i < |prev| ==> prev[i] < colors[k - 1] by {
        forall i | 0 <= i < |prev|
          ensures prev[i] < colors[k - 1]
        {
          assert prev[i] in colors[..k - 1];
        }
      }
      assert colors[..k] == colors[..k - 1] + [colors[k - 1]];
    }
  }

  /** Over a palette in increasing order (every script's palette is a
      range), colors_used comes out in increasing order. */
  lemma UsedColorsOrdered(colors: seq<int>, y: seq<int>)
    requires |y| == |colors|
    requires forall i, j :: 0 <= i < j < |colors| ==> colors[i] < colors[j]
    ensures forall i, j :: 0 <= i < j < |UsedColors(colors, y)| ==> UsedColors(colors, y)[i] < UsedColors(colors, y)[j]
  {
    UsedPrefixOrdered(colors, y, |colors|);
  }

  lemma {:induction false} UsedPrefixCount(colors: seq<int>, y: seq<int>, k: nat)
    requires k <= |colors| && k <= |y| && IsBinary(y)
    ensures |UsedPrefix(colors, y, k)| == Sum(y[..k])
  {
    if k > 0 {
      UsedPrefixCount(colors, y, k - 1);
      assert y[..k][..k - 1] == y[..k - 1];
    }
  }

  /** For 0/1 values the number of colours reported equals the objective
      value: the sum of every y. */
  lemma UsedColorsCountIsObjective(rows: nat, c1: seq<Constraint>, edges: seq<seq<int>>, colors: seq<int>, y: seq<int>)
    requires |y| == |colors| && IsBinary(y)
    requires WellFormed(ModelWith(rows, |colors|, c1, edges))
    ensures |UsedColors(colors, y)| == ObjectiveValue(ModelWith(rows, |colors|, c1, edges), y)
  {
    UsedPrefixCount(colors, y, |colors|);
    assert y[..|colors|] == y;
    ObjectiveIsSum(rows, |colors|, c1, edges, y);
  }

  // ---------------------------------------------------------------------
  // vertex_color

  /** The shape of the values read: one row per vertex, one column per colour. */
  predicate Readable(vertices: seq<int>, colors: seq<int>, x: seq<seq<int>>) {
    |x| == |vertices| && forall v :: 0 <= v < |x| ==> |x[v]| == |colors|
  }

  /** The dict after the inner loop has visited the columns below k of row
      v, starting from d. */
  function GroupRow(d: Dict<int, seq<int>>, vertices: seq<int>, colors: seq<int>, x: seq<seq<int>>, v: nat, k: nat): Dict<int, seq<int>>
    requires Readable(vertices, colors, x) && v < |vertices| && k <= |colors|
  {
    if k == 0 then d
    else
      var prev := GroupRow(d, vertices, colors, x, v, k - 1);
      if x[v][k - 1] == 1 then Append(prev, colors[k - 1], vertices[v]) else prev
  }

  /** The dict after the outer loop has visited the rows below k. */
  function GroupRows(vertices: seq<int>, colors: seq<int>, x: seq<seq<int>>, k: nat): Dict<int, seq<int>>
    requires Readable(vertices, colors, x) && k <= |vertices|
  {
    if k == 0 then Empty() else GroupRow(GroupRows(vertices, colors, x, k - 1), vertices, colors, x, k - 1, |colors|)
  }

  function VertexColorOf(vertices: seq<int>, colors: seq<int>, x: seq<seq<int>>): Dict<int, seq<int>>
    requires Readable(vertices, colors, x)
  {
    GroupRows(vertices, colors, x, |vertices|)
  }

  /** The vertex_color loops. */
  method VertexColor(vertices: seq<int>, colors: seq<int>, x: seq<seq<int>>) returns (vc: Dict<int, seq<int>>)
    requires Readable(vertices, colors, x)
    ensures vc == VertexColorOf(vertices, colors, x)
  {
    vc := Empty();
    var v := 0;
    while v < |vertices|
      invariant 0 <= v <= |vertices|
      invariant vc == GroupRows(vertices, colors, x, v)
    {
      ghost var start := vc;
      var c := 0;
      while c < |colors|
        invariant 0 <= c <= |colors|
        invariant vc == GroupRow(start, vertices, colors, x, v, c)
      {
        if x[v][c] == 1 {
          vc := Append(vc, colors[c], vertices[v]);
        }
        c := c + 1;
      }
      v := v + 1;
    }
  }

  /** The vertices of the rows below k whose x is 1 in column c, in row order. */
  function ColumnVertices(vertices: seq<int>, colors: seq<int>, x: seq<seq<int>>, c: nat, k: nat): seq<int>
    requires Readable(vertices, colors, x) && c < |colors| && k <= |vertices|
  {
    if k == 0 then []
    else
      var prev := ColumnVertices(vertices, colors, x, c, k - 1);
      if x[k - 1][c] == 1 then prev + [vertices[k - 1]] else prev
  }

  /** The labels the inner loop meets in row v over the columns below k. */
  function RowLabels(vertices: seq<int>, colors: seq<int>, x: seq<seq<int>>, v: nat, k: nat): seq<int>
    requires Readable(vertices, colors, x) && v < |vertices| && k <= |colors|
  {
    if k == 0 then []
    else RowLabels(vertices, colors, x, v, k - 1) + (if x[v][k - 1] == 1 then [colors[k - 1]] else [])
  }

  /** The labels met over the rows below k, in row-major order. */
  function ScanLabels(vertices: seq<int>, colors: seq<int>, x: seq<seq<int>>, k: nat): seq<int>
    requires Readable(vertices, colors, x) && k <= |vertices|
  {
    if k == 0 then [] else ScanLabels(vertices, colors, x, k - 1) + RowLabels(vertices, colors, x, k - 1, |colors|)
  }

  /** Row v of the inner loop adds vertices[v] to the list of column c
      exactly when it marks that column. */
  lemma {:induction false} GroupRowColumn(d: Dict<int, seq<int>>, vertices: seq<int>, colors: seq<int>, x: seq<seq<int>>, v: nat, k: nat, c: nat)
    requires Readable(vertices, colors, x) && v < |vertices| && k <= |colors| && c < |colors|
    requires NoRepeats(colors)
    ensures GetOr(GroupRow(d, vertices, colors, x, v, k), colors[c]) ==
      if c < k && x[v][c] == 1 then GetOr(d, colors[c]) + [vertices[v]] else GetOr(d, colors[c])
  {
    if k > 0 {
      GroupRowColumn(d, vertices, colors, x, v, k - 1, c);
    }
  }

  lemma {:induction false} GroupRowsColumn(vertices: seq<int>, colors: seq<int>, x: seq<seq<int>>, k: nat, c: nat)
    requires Readable(vertices, colors, x) && k <= |vertices| && c < |colors|
    requires NoRepeats(colors)
    ensures GetOr(GroupRows(vertices, colors, x, k), colors[c]) == ColumnVertices(vertices, colors, x, c, k)
  {
    if k > 0 {
      GroupRowsColumn(vertices, colors, x, k - 1, c);
      GroupRowColumn(GroupRows(vertices, colors, x, k - 1), vertices, colors, x, k - 1, |colors|, c);
    }
  }

  /** The inner loop touches no label outside the palette. */
  lemma {:induction false} GroupRowOthers(d: Dict<int, seq<int>>, vertices: seq<int>, colors: seq<int>, x: seq<seq<int>>, v: nat, k: nat, lab: int)
    requires Readable(vertices, colors, x) && v < |vertices| && k <= |colors| && lab !in colors
    ensures GetOr(GroupRow(d, vertices, colors, x, v, k), lab) == GetOr(d, lab)
  {
    if k > 0 {
      GroupRowOthers(d, vertices, colors, x, v, k - 1, lab);
      assert colors[k - 1] != lab;
    }
  }

  lemma {:induction false} GroupRowsOthers(vertices: seq<int>, colors: seq<int>, x: seq<seq<int>>, k: nat, lab: int)
    requires Readable(vertices, colors, x) && k <= |vertices| && lab !in colors
    ensures GetOr(GroupRows(vertices, colors, x, k), lab) == []
  {
    if k > 0 {
      GroupRowsOthers(vertices, colors, x, k - 1, lab);
      GroupRowOthers(GroupRows(vertices, colors, x, k - 1), vertices, colors, x, k - 1, |colors|, lab);
    }
  }

  lemma {:induction false} GroupRowKeysNonEmpty(d: Dict<int, seq<int>>, vertices: seq<int>, colors: seq<int>, x: seq<seq<int>>, v: nat, k: nat)
    requires Readable(vertices, colors, x) && v < |vertices| && k <= |colors|
    requires Valid(d) && forall lab :: lab in d.keys <==> GetOr(d, lab) != []
    ensures Valid(GroupRow(d, vertices, colors, x, v, k))
    ensures forall lab :: lab in GroupRow(d, vertices, colors, x, v, k).keys <==> GetOr(GroupRow(d, vertices, colors, x, v, k), lab) != []
  {
    if k > 0 {
      GroupRowKeysNonEmpty(d, vertices, colors, x, v, k - 1);
    }
  }

  /** A label is a key exactly when its list is non-empty: the loops create
      a key only to append to it. */
  lemma {:induction false} GroupRowsKeysNonEmpty(vertices: seq<int>, colors: seq<int>, x: seq<seq<int>>, k: nat)
    requires Readable(vertices, colors, x) && k <= |vertices|
    ensures Valid(GroupRows(vertices, colors, x, k))
    ensures forall lab :: lab in GroupRows(vertices, colors, x, k).keys <==> GetOr(GroupRows(vertices, colors, x, k), lab) != []
  {
    if k > 0 {
      GroupRowsKeysNonEmpty(vertices, colors, x, k - 1);
      GroupRowKeysNonEmpty(GroupRows(vertices, colors, x, k - 1), vertices, colors, x, k - 1, |colors|);
    }
  }

  lemma {:induction false} GroupRowKeys(d: Dict<int, seq<int>>, before: seq<int>, vertices: seq<int>, colors: seq<int>, x: seq<seq<int>>, v: nat, k: nat)
    requires Readable(vertices, colors, x) && v < |vertices| && k <= |colors|
    requires KeyedBy(d, before)
    ensures KeyedBy(GroupRow(d, vertices, colors, x, v, k), before + RowLabels(vertices, colors, x, v, k))
  {
    if k == 0 {
      assert before + [] == before;
    } else {
      GroupRowKeys(d, before, vertices, colors, x, v, k - 1);
      var s := before + RowLabels(vertices, colors, x, v, k - 1);
      var prev := GroupRow(d, vertices, colors, x, v, k - 1);
      if x[v][k - 1] == 1 {
        var lab := colors[k - 1];
        assert GroupRow(d, vertices, colors, x, v, k) == Append(prev, lab, vertices[v]);
        assert RowLabels(vertices, colors, x, v, k) == RowLabels(vertices, colors, x, v, k - 1) + [lab];
        AppendAssoc(before, RowLabels(vertices, colors, x, v, k - 1), [lab]);
        AppendKeysDedup(prev, s, lab, vertices[v]);
      } else {
        assert GroupRow(d, vertices, colors, x, v, k) == prev;
        assert RowLabels(vertices, colors, x, v, k) == RowLabels(vertices, colors, x, v, k - 1) + [];
        assert RowLabels(vertices, colors, x, v, k) == RowLabels(vertices, colors, x, v, k - 1);
      }
    }
  }

  /** Keys are created in the order the row-major scan first meets a label. */
  lemma {:induction false} GroupRowsKeys(vertices: seq<int>, colors: seq<int>, x: seq<seq<int>>, k: nat)
    requires Readable(vertices, colors, x) && k <= |vertices|
    ensures KeyedBy(GroupRows(vertices, colors, x, k), ScanLabels(vertices, colors, x, k))
  {
    if k > 0 {
      GroupRowsKeys(vertices, colors, x, k - 1);
      GroupRowsStep(vertices, colors, x, k);
      GroupRowKeys(GroupRows(vertices, colors, x, k - 1), ScanLabels(vertices, colors, x, k - 1), vertices, colors, x, k - 1, |colors|);
    }
  }

  /** One more row of the scan: the dict and the label sequence grow by
      that row. */
  lemma GroupRowsStep(vertices: seq<int>, colors: seq<int>, x: seq<seq<int>>, k: nat)
    requires Readable(vertices, colors, x) && 0 < k <= |vertices|
    ensures GroupRows(vertices, colors, x, k) == GroupRow(GroupRows(vertices, colors, x, k - 1), vertices, colors, x, k - 1, |colors|)
    ensures ScanLabels(vertices, colors, x, k) == ScanLabels(vertices, colors, x, k - 1) + RowLabels(vertices, colors, x, k - 1, |colors|)
  {
  }

  /** What vertex_color holds, for a palette without repeated labels: every
      key is one of the palette's labels, listed once; a label is a key
      exactly when some row has x = 1 in its column, and its list holds
      vertices[v] for those rows in increasing v, each once; keys come in
      the order in which the row-major scan first meets them. */
  lemma VertexColorMeaning(vertices: seq<int>, colors: seq<int>, x: seq<seq<int>>)
    requires Readable(vertices, colors, x)
    requires NoRepeats(colors)
    ensures var vc := VertexColorOf(vertices, colors, x);
      && Valid(vc)
      && vc.keys == Dedup(ScanLabels(vertices, colors, x, |vertices|))
      && (forall c :: 0 <= c < |colors| ==>
            GetOr(vc, colors[c]) == ColumnVertices(vertices, colors, x, c, |vertices|)
            && (colors[c] in vc.keys <==> ColumnVertices(vertices, colors, x, c, |vertices|) != []))
      && (forall lab :: lab !in colors ==> lab !in vc.keys)
  {
    GroupRowsKeys(vertices, colors, x, |vertices|);
    GroupRowsKeysNonEmpty(vertices, colors, x, |vertices|);
    forall c | 0 <= c < |colors|
      ensures GetOr(GroupRows(vertices, colors, x, |vertices|), colors[c]) == ColumnVertices(vertices, colors, x, c, |vertices|)
    {
      GroupRowsColumn(vertices, colors, x, |vertices|, c);
    }
    forall lab | lab !in colors
      ensures GetOr(GroupRows(vertices, colors, x, |vertices|), lab) == []
    {
      GroupRowsOthers(vertices, colors, x, |vertices|, lab);
    }
  }

  lemma {:induction false} ColumnVerticesMembers(vertices: seq<int>, colors: seq<int>, x: seq<seq<int>>, c: nat, k: nat, u: int)
    requires Readable(vertices, colors, x) && c < |colors| && k <= |vertices|
    ensures u in ColumnVertices(vertices, colors, x, c, k) <==> exists v :: 0 <= v < k && x[v][c] == 1 && vertices[v] == u
  {
    if k > 0 {
      ColumnVerticesMembers(vertices, colors, x, c, k - 1, u);
    }
  }

  /** A vertex is listed under a palette label exactly when some row
      carrying that vertex has x = 1 in the label's column. */
  lemma VertexColorMembers(vertices: seq<int>, colors: seq<int>, x: seq<seq<int>>, c: nat, u: int)
    requires Readable(vertices, colors, x) && c < |colors|
    requires NoRepeats(colors)
    ensures u in GetOr(VertexColorOf(vertices, colors, x), colors[c]) <==>
      exists v :: 0 <= v < |vertices| && x[v][c] == 1 && vertices[v] == u
  {
    GroupRowsColumn(vertices, colors, x, |vertices|, c);
    ColumnVerticesMembers(vertices, colors, x, c, |vertices|, u);
  }

  /** A row holding exactly one 1 puts its vertex under the label of that
      column. */
  lemma AssignedRowReported(vertices: seq<int>, colors: seq<int>, x: seq<seq<int>>, v: nat)
    requires Readable(vertices, colors, x) && v < |vertices|
    requires NoRepeats(colors)
    requires ExactlyOne(x[v])
    ensures exists c :: 0 <= c < |colors| && x[v][c] == 1 && vertices[v] in GetOr(VertexColorOf(vertices, colors, x), colors[c])
  {
    var c :| 0 <= c < |x[v]| && x[v][c] == 1 && forall d :: 0 <= d < |x[v]| && d != c ==> x[v][d] == 0;
    VertexColorMembers(vertices, colors, x, c, vertices[v]);
  }

  /** With distinct vertex labels and exactly one 1 per row, a vertex is
      listed under one label only. */
  lemma ReportedOnce(vertices: seq<int>, colors: seq<int>, x: seq<seq<int>>, v: nat, c: nat, d: nat)
    requires Readable(vertices, colors, x) && v < |vertices| && c < |colors| && d < |colors|
    requires NoRepeats(colors)
    requires NoRepeats(vertices)
    requires forall w :: 0 <= w < |vertices| ==> ExactlyOne(x[w])
    requires vertices[v] in GetOr(VertexColorOf(vertices, colors, x), colors[c])
    requires vertices[v] in GetOr(VertexColorOf(vertices, colors, x), colors[d])
    ensures c == d
  {
    VertexColorMembers(vertices, colors, x, c, vertices[v]);
    VertexColorMembers(vertices, colors, x, d, vertices[v]);
    var w1 :| 0 <= w1 < |vertices| && x[w1][c] == 1 && vertices[w1] == vertices[v];
    var w2 :| 0 <= w2 < |vertices| && x[w2][d] == 1 && vertices[w2] == vertices[v];
    assert w1 == v && w2 == v;
    var e :| 0 <= e < |x[v]| && x[v][e] == 1 && forall f :: 0 <= f < |x[v]| && f != e ==> x[v][f] == 0;
  }

  // ---------------------------------------------------------------------
  // The report

  /** Whether the solver proved optimality (`vc.status == GRB.OPTIMAL`). */
  datatype Status = Optimal | NotOptimal

  /** What the scripts write for one instance: the colours and the mapping
      after an optimal solve, or the "No optimal solution" line. */
  datatype Report =
    | Solved(colorsUsed: seq<int>, total: nat, vertexColor: Dict<int, seq<int>>)
    | NoOptimalSolution

  /** The status-gated extraction shared by the three scripts. */
  method Extract(status: Status, vertices: seq<int>, colors: seq<int>, x: seq<seq<int>>, y: seq<int>) returns (r: Report)
    requires Readable(vertices, colors, x) && |y| == |colors|
    ensures r.Solved? <==> status == Optimal
    ensures r.Solved? ==> r.colorsUsed == UsedColors(colors, y)
    ensures r.Solved? ==> r.total == |r.colorsUsed|
    ensures r.Solved? ==> r.vertexColor == VertexColorOf(vertices, colors, x)
  {
    if status == Optimal {
      var used := ColorsUsed(colors, y);
      var vc := VertexColor(vertices, colors, x);
      r := Solved(used, |used|, vc);
    } else {
      r := NoOptimalSolution;
    }
  }
}
