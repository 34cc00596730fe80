/** The list-colouring script, for one file of its batch. The file is read
    in three passes over its lines:

      1. every line starting with `n` gives `int(line.split('=')[1])`; the
         first of these is the vertex count k, vertices are 0 .. k-1 and
         colours 1 .. k-1;
      2. every line starting with `e` gives an edge tuple;
      3. every line containing `:` maps `int(before.strip())` to the
         tab-separated integers after it, a later line overwriting an
         earlier one for the same vertex.

    C1 is one equality per vertex of the colour-list dict, summing
    `x[v][c]` over its listed values c (list values are used as column
    indices, and a key as a row index); C2 and the objective are the shared
    loops. */
module ListColouring {
  import opened Common
  import opened PyBuiltins
  import opened OrderedDict
  import opened LineScan
  import opened EdgeLines
  import opened Ilp
  import opened Extraction

  // ---------------------------------------------------------------------
  // Pass 1: the vertex count

  predicate IsCountLine(line: string) {
    StartsWith(line, 'n')
  }

  /** `int(line.split('=')[1])`: an IndexError without `=`, the ValueError
      of int() when the text after the first `=` (up to any second one) is
      not an integer. */
  function CountOf(line: string): Result<int, Failure> {
    var parts := Split(line, '=');
    if |parts| < 2 then Err(IndexError)
    else
      var n := ParseInt(parts[1]);
      if n.None? then Err(ValueError(parts[1])) else Ok(n.value)
  }

  /** `no_of_vertices[0]` after the first pass. */
  function VertexCount(lines: seq<string>): Result<int, Failure> {
    var counts := Collect(lines, IsCountLine, CountOf);
    if counts.Err? then Err(counts.error)
    else if |counts.value| == 0 then Err(IndexError)
    else Ok(counts.value[0])
  }

  /** The count is read from the first `n` line, though every `n` line must
      hold an integer; without any `n` line the lookup fails. */
  lemma VertexCountFirst(lines: seq<string>)
    ensures VertexCount(lines).Ok? <==>
      && (forall i :: 0 <= i < |lines| && IsCountLine(lines[i]) ==> CountOf(lines[i]).Ok?)
      && (exists i :: 0 <= i < |lines| && IsCountLine(lines[i]))
    ensures VertexCount(lines).Ok? ==>
      exists i ::
        && 0 <= i < |lines| && IsCountLine(lines[i])
        && CountOf(lines[i]) == Ok(VertexCount(lines).value)
        && forall j :: 0 <= j < i ==> !IsCountLine(lines[j])
    ensures (forall i :: 0 <= i < |lines| ==> !IsCountLine(lines[i])) ==> VertexCount(lines) == Err(IndexError)
  {
    CollectOk(lines, IsCountLine, CountOf);
    SelectedFirst(lines, IsCountLine);
    var counts := Collect(lines, IsCountLine, CountOf);
    if counts.Ok? && |counts.value| > 0 {
      var picked := Selected(lines, IsCountLine);
      assert CountOf(picked[0]) == Ok(counts.value[0]);
    }
  }

  // ---------------------------------------------------------------------
  // Pass 3: the colour lists

  predicate IsListLine(line: string) {
    ':' in line
  }

  /** `parts = line.split(":")`, then `int(parts[0].strip())` and
      `[int(c) for c in parts[1].strip().split("\t")]`, in that order. */
  function ListEntry(line: string): Result<(int, seq<int>), Failure> {
    var parts := Split(line, ':');
    if |parts| < 2 then Err(IndexError)
    else
      var key := ParseInt(Strip(parts[0]));
      if key.None? then Err(ValueError(Strip(parts[0])))
      else
        var values := MapInt(Split(Strip(parts[1]), '\t'));
        if values.Err? then Err(values.error) else Ok((key.value, values.value))
  }

  /** The vertices of the entries, in line order. */
  function EntryKeys(entries: seq<(int, seq<int>)>): (r: seq<int>)
    ensures |r| == |entries|
    ensures forall i :: 0 <= i < |entries| ==> r[i] == entries[i].0
  {
    if entries == [] then []
    else EntryKeys(entries[..|entries| - 1]) + [entries[|entries| - 1].0]
  }

  /** The dict after `d[v] = cs` for every entry in turn. */
  function PutAll(entries: seq<(int, seq<int>)>): Dict<int, seq<int>> {
    if entries == [] then Empty()
    else
      var e := entries[|entries| - 1];
      Put(PutAll(entries[..|entries| - 1]), e.0, e.1)
  }

  /** `list_coloring` after the third pass, or the failure that stops it. */
  function ListsOf(lines: seq<string>): Result<Dict<int, seq<int>>, Failure> {
    var entries := Collect(lines, IsListLine, ListEntry);
    if entries.Err? then Err(entries.error) else Ok(PutAll(entries.value))
  }

  /** The third pass. */
  method ReadLists(lines: seq<string>) returns (r: Result<Dict<int, seq<int>>, Failure>)
    ensures r == ListsOf(lines)
  {
    var lists: Dict<int, seq<int>> := Empty();
    ghost var entries: seq<(int, seq<int>)> := [];
    var i := 0;
    while i < |lines|
      invariant 0 <= i <= |lines|
      invariant Collect(lines[..i], IsListLine, ListEntry) == Ok(entries)
      invariant lists == PutAll(entries)
    {
      CollectStep(lines, IsListLine, ListEntry, i, entries);
      if IsListLine(lines[i]) {
        var e := ListEntry(lines[i]);
        if e.Err? {
          CollectErrSticks(lines, IsListLine, ListEntry, i + 1);
          return Err(e.error);
        }
        PutAllStep(entries, e.value);
        lists := Put(lists, e.value.0, e.value.1);
        entries := entries + [e.value];
      }
      i := i + 1;
    }
    assert lines[..i] == lines;
    return Ok(lists);
  }

  /** One more `:` line stores its list under its vertex. */
  lemma PutAllStep(entries: seq<(int, seq<int>)>, e: (int, seq<int>))
    ensures PutAll(entries + [e]) == Put(PutAll(entries), e.0, e.1)
  {
    assert (entries + [e])[..|entries|] == entries;
  }

  /** Storing the entries one by one lists each vertex once, in the order
      of its first line. */
  lemma {:induction false} PutAllKeys(entries: seq<(int, seq<int>)>)
    ensures Valid(PutAll(entries))
    ensures PutAll(entries).keys == Dedup(EntryKeys(entries))
  {
    if entries != [] {
      var init := entries[..|entries| - 1];
      PutAllKeys(init);
      assert EntryKeys(entries)[..|entries| - 1] == EntryKeys(init);
    }
  }

  /** A vertex on no line is absent. */
  lemma {:induction false} PutAllHas(entries: seq<(int, seq<int>)>)
    ensures forall v :: Get(PutAll(entries), v).Some? <==> v in EntryKeys(entries)
  {
    if entries != [] {
      var init, e := entries[..|entries| - 1], entries[|entries| - 1];
      PutAllHas(init);
      assert EntryKeys(entries) == EntryKeys(init) + [e.0];
    }
  }

  /** A vertex holds the list of its last line. */
  lemma {:induction false} PutAllLastWins(entries: seq<(int, seq<int>)>)
    ensures forall i :: 0 <= i < |entries| && (forall j :: i < j < |entries| ==> entries[j].0 != entries[i].0) ==>
      Get(PutAll(entries), entries[i].0) == Some(entries[i].1)
  {
    if entries != [] {
      var init, e := entries[..|entries| - 1], entries[|entries| - 1];
      PutAllLastWins(init);
      assert PutAll(entries) == Put(PutAll(init), e.0, e.1);
      forall i | 0 <= i < |init| && (forall j :: i < j < |entries| ==> entries[j].0 != entries[i].0)
        ensures Get(PutAll(entries), entries[i].0) == Some(entries[i].1)
      {
        var k := entries[i].0;
        assert entries[i] == init[i];
        assert k != e.0;
        assert forall j :: i < j < |init| ==> init[j].0 != k by {
          assert forall j :: i < j < |init| ==> init[j] == entries[j];
        }
        assert Get(PutAll(init), k) == Some(init[i].1);
      }
    }
  }

  /** The third pass succeeds exactly when every `:` line converts. The
      dict then holds, in order of first appearance, each vertex named on a
      `:` line, mapped to the list of the last such line. */
  lemma ListsMeaning(lines: seq<string>)
    ensures ListsOf(lines).Ok? <==> forall i :: 0 <= i < |lines| && IsListLine(lines[i]) ==> ListEntry(lines[i]).Ok?
    ensures ListsOf(lines).Ok? ==>
      var picked, entries := Selected(lines, IsListLine), Collect(lines, IsListLine, ListEntry).value;
      && |entries| == |picked|
      && (forall j :: 0 <= j < |picked| ==> ListEntry(picked[j]) == Ok(entries[j]))
      && Valid(ListsOf(lines).value)
      && ListsOf(lines).value.keys == Dedup(EntryKeys(entries))
      && (forall v :: Get(ListsOf(lines).value, v).Some? <==> v in EntryKeys(entries))
      && forall j :: 0 <= j < |entries| && (forall j' :: j < j' < |entries| ==> entries[j'].0 != entries[j].0) ==>
           Get(ListsOf(lines).value, entries[j].0) == Some(entries[j].1)
  {
    CollectOk(lines, IsListLine, ListEntry);
    var entries := Collect(lines, IsListLine, ListEntry);
    if entries.Ok? {
      PutAllKeys(entries.value);
      PutAllHas(entries.value);
      PutAllLastWins(entries.value);
    }
  }

  /** A `:` line that converts carries at least one colour: split() always
      returns a piece, and each piece must pass int(). */
  lemma ListEntryNonEmpty(line: string)
    ensures ListEntry(line).Ok? ==> |ListEntry(line).value.1| >= 1
  {
    var parts := Split(line, ':');
    if |parts| >= 2 {
      MapIntMeaning(Split(Strip(parts[1]), '\t'));
    }
  }

  /** Nothing but whitespace after the colon leaves the single piece "",
      which int() rejects: the line raises a ValueError rather than giving
      an empty list. */
  lemma EmptyListValueError(line: string)
    requires |Split(line, ':')| >= 2 && ParseInt(Strip(Split(line, ':')[0])).Some?
    requires Strip(Split(line, ':')[1]) == ""
    ensures ListEntry(line) == Err(ValueError(""))
  {
    var parts := Split(line, ':');
    assert Split(Strip(parts[1]), '\t') == [""];
    MapIntOfEmpty();
  }

  /** Storing lists that are all non-empty stores only non-empty lists. */
  lemma {:induction false} PutAllNonEmpty(entries: seq<(int, seq<int>)>)
    requires forall j :: 0 <= j < |entries| ==> |entries[j].1| >= 1
    ensures forall v :: Get(PutAll(entries), v).Some? ==> |Get(PutAll(entries), v).value| >= 1
  {
    if entries != [] {
      PutAllNonEmpty(entries[..|entries| - 1]);
    }
  }

  /** Every list the third pass stores is non-empty. */
  lemma ListsNonEmpty(lines: seq<string>)
    ensures ListsOf(lines).Ok? ==>
      forall v :: Get(ListsOf(lines).value, v).Some? ==> |Get(ListsOf(lines).value, v).value| >= 1
  {
    var entries := Collect(lines, IsListLine, ListEntry);
    if entries.Ok? {
      CollectOk(lines, IsListLine, ListEntry);
      var picked := Selected(lines, IsListLine);
      forall j | 0 <= j < |entries.value|
        ensures |entries.value[j].1| >= 1
      {
        ListEntryNonEmpty(picked[j]);
      }
      PutAllNonEmpty(entries.value);
    }
  }

  // ---------------------------------------------------------------------
  // The instance

  datatype Instance = Instance(vertices: seq<int>, colors: seq<int>, edges: seq<seq<int>>, lists: Dict<int, seq<int>>)

  /** The three passes, failing with the first failure in the order the
      script meets them. */
  function ParseSpec(lines: seq<string>): Result<Instance, Failure> {
    var k := VertexCount(lines);
    if k.Err? then Err(k.error)
    else
      var edges := EdgesOf(lines);
      if edges.Err? then Err(edges.error)
      else
        var lists := ListsOf(lines);
        if lists.Err? then Err(lists.error)
        else Ok(Instance(Range(0, k.value), Range(1, k.value), edges.value, lists.value))
  }

  method Parse(lines: seq<string>) returns (r: Result<Instance, Failure>)
    ensures r == ParseSpec(lines)
  {
    var counts := Scan(lines, IsCountLine, CountOf);
    if counts.Err? {
      return Err(counts.error);
    }
    if |counts.value| == 0 {
      return Err(IndexError);
    }
    var vertices := Range(0, counts.value[0]);
    var colors := Range(1, counts.value[0]);
    var edges := ReadEdges(lines);
    if edges.Err? {
      return Err(edges.error);
    }
    var lists := ReadLists(lines);
    if lists.Err? {
      return Err(lists.error);
    }
    return Ok(Instance(vertices, colors, edges.value, lists.value));
  }

  /** Vertex labels are their positions, colour labels are one more than
      their positions, and there is one colour fewer than vertices. */
  lemma InstanceShape(lines: seq<string>)
    ensures ParseSpec(lines).Ok? ==> VertexCount(lines).Ok?
    ensures ParseSpec(lines).Ok? ==>
      var inst, k := ParseSpec(lines).value, VertexCount(lines).value;
      && |inst.vertices| == (if k > 0 then k else 0)
      && |inst.colors| == (if k > 1 then k - 1 else 0)
      && (k >= 1 ==> |inst.colors| == |inst.vertices| - 1)
      && (forall v :: 0 <= v < |inst.vertices| ==> inst.vertices[v] == v)
      && (forall c :: 0 <= c < |inst.colors| ==> inst.colors[c] == c + 1)
  {
  }

  /** Every vertex of a parsed file holds a non-empty list, so the empty
      list of `EmptyListInfeasible` never comes from a file. */
  lemma ParsedListsNonEmpty(lines: seq<string>)
    ensures ParseSpec(lines).Ok? ==>
      var lists := ParseSpec(lines).value.lists;
      forall i :: 0 <= i < |lists.keys| ==> |GetOr(lists, lists.keys[i])| >= 1
  {
    if ParseSpec(lines).Ok? {
      var lists := ListsOf(lines).value;
      assert ParseSpec(lines).value.lists == lists;
      ListsNonEmpty(lines);
      PutAllKeys(Collect(lines, IsListLine, ListEntry).value);
      ListedKeysNonEmpty(lists);
    }
  }

  /** In a dict whose lists are all non-empty, every listed key reads one. */
  lemma ListedKeysNonEmpty(d: Dict<int, seq<int>>)
    requires Listed(d)
    requires forall v :: Get(d, v).Some? ==> |Get(d, v).value| >= 1
    ensures forall i :: 0 <= i < |d.keys| ==> |GetOr(d, d.keys[i])| >= 1
  {
    forall i | 0 <= i < |d.keys|
      ensures |GetOr(d, d.keys[i])| >= 1
    {
      assert Get(d, d.keys[i]).Some?;
    }
  }

  // ---------------------------------------------------------------------
  // C1 over the colour lists

  /** The (row, column) read by each `x[v][c]` of
      `quicksum(x[v][c] for c in cs)`, or the IndexError of the first
      lookup out of range. Keys and list values are Python indices, so
      negative ones count from the end. */
  function ListTerms(v: int, cs: seq<int>, rows: nat, cols: nat): Result<seq<(nat, nat)>, Failure> {
    if cs == [] then Ok([])
    else
      var prev := ListTerms(v, cs[..|cs| - 1], rows, cols);
      var r, c := PyIndex(v, rows), PyIndex(cs[|cs| - 1], cols);
      if prev.Err? then prev
      else if r.None? || c.None? then Err(IndexError)
      else Ok(prev.value + [(r.value, c.value)])
  }

  /** The terms read for one vertex: an IndexError unless its row and every
      listed column are valid indices; otherwise one term per listed value,
      in list order. An empty list reads nothing, whatever the key. */
  lemma {:induction false} ListTermsMeaning(v: int, cs: seq<int>, rows: nat, cols: nat)
    ensures ListTerms(v, cs, rows, cols).Ok? <==>
      (cs == [] || PyIndex(v, rows).Some?) && forall i :: 0 <= i < |cs| ==> PyIndex(cs[i], cols).Some?
    ensures ListTerms(v, cs, rows, cols).Err? ==> ListTerms(v, cs, rows, cols).error == IndexError
    ensures ListTerms(v, cs, rows, cols).Ok? ==>
      var terms := ListTerms(v, cs, rows, cols).value;
      && |terms| == |cs|
      && forall i :: 0 <= i < |cs| ==> terms[i] == (PyIndex(v, rows).value, PyIndex(cs[i], cols).value)
  {
    if cs != [] {
      var init := cs[..|cs| - 1];
      ListTermsMeaning(v, init, rows, cols);
      assert forall i :: 0 <= i < |init| ==> cs[i] == init[i];
    }
  }

  /** The terms of the i-th key of the dict, with `list_coloring.get(v)`. */
  function KeyTerms(lists: Dict<int, seq<int>>, i: nat, rows: nat, cols: nat): Result<seq<(nat, nat)>, Failure>
    requires i < |lists.keys|
  {
    ListTerms(lists.keys[i], GetOr(lists, lists.keys[i]), rows, cols)
  }

  /** The C1 list after the loop has visited the first k keys. */
  function ListAssignmentsPrefix(lists: Dict<int, seq<int>>, rows: nat, cols: nat, k: nat): Result<seq<Constraint>, Failure>
    requires k <= |lists.keys|
  {
    if k == 0 then Ok([])
    else
      var prev := ListAssignmentsPrefix(lists, rows, cols, k - 1);
      var terms := KeyTerms(lists, k - 1, rows, cols);
      if prev.Err? then prev
      else if terms.Err? then Err(terms.error)
      else Ok(prev.value + [AssignEq(terms.value)])
  }

  function ListAssignments(lists: Dict<int, seq<int>>, rows: nat, cols: nat): Result<seq<Constraint>, Failure> {
    ListAssignmentsPrefix(lists, rows, cols, |lists.keys|)
  }

  /** `for v in list_coloring.keys(): addConstr(quicksum(x[v][c] for c in list_coloring.get(v)) == 1)` */
  method AddListAssignments(lists: Dict<int, seq<int>>, rows: nat, cols: nat) returns (r: Result<seq<Constraint>, Failure>)
    ensures r == ListAssignments(lists, rows, cols)
  {
    var keys := lists.keys;
    var cs: seq<Constraint> := [];
    var i := 0;
    while i < |keys|
      invariant 0 <= i <= |keys|
      invariant ListAssignmentsPrefix(lists, rows, cols, i) == Ok(cs)
    {
      var v := keys[i];
      var terms := ListTerms(v, GetOr(lists, v), rows, cols);
      if terms.Err? {
        ListAssignmentsErrSticks(lists, rows, cols, i + 1, |keys|);
        return Err(terms.error);
      }
      cs := cs + [AssignEq(terms.value)];
      i := i + 1;
    }
    return Ok(cs);
  }

  lemma {:induction false} ListAssignmentsErrSticks(lists: Dict<int, seq<int>>, rows: nat, cols: nat, k: nat, n: nat)
    requires k <= n <= |lists.keys| && ListAssignmentsPrefix(lists, rows, cols, k).Err?
    ensures ListAssignmentsPrefix(lists, rows, cols, n) == ListAssignmentsPrefix(lists, rows, cols, k)
    decreases n
  {
    if n > k {
      ListAssignmentsErrSticks(lists, rows, cols, k, n - 1);
    }
  }

  lemma {:induction false} ListAssignmentsPrefixMeaning(lists: Dict<int, seq<int>>, rows: nat, cols: nat, k: nat)
    requires k <= |lists.keys|
    ensures ListAssignmentsPrefix(lists, rows, cols, k).Ok? <==>
      forall i :: 0 <= i < k ==> KeyTerms(lists, i, rows, cols).Ok?
    ensures ListAssignmentsPrefix(lists, rows, cols, k).Err? ==>
      exists i :: 0 <= i < k && KeyTerms(lists, i, rows, cols) == Err(ListAssignmentsPrefix(lists, rows, cols, k).error)
    ensures ListAssignmentsPrefix(lists, rows, cols, k).Ok? ==>
      var cs := ListAssignmentsPrefix(lists, rows, cols, k).value;
      && |cs| == k
      && forall i :: 0 <= i < k ==> cs[i] == AssignEq(KeyTerms(lists, i, rows, cols).value)
  {
    if k > 0 {
      ListAssignmentsPrefixMeaning(lists, rows, cols, k - 1);
    }
  }

  /** C1 succeeds exactly when every key and every listed value is a valid
      index, and fails only with an IndexError; it then holds one equality
      per key, in key order, summing the listed columns of that key's row. */
  lemma ListAssignmentsMeaning(lists: Dict<int, seq<int>>, rows: nat, cols: nat)
    ensures ListAssignments(lists, rows, cols).Ok? <==>
      forall i :: 0 <= i < |lists.keys| ==>
        var cs := GetOr(lists, lists.keys[i]);
        && (cs == [] || PyIndex(lists.keys[i], rows).Some?)
        && forall j :: 0 <= j < |cs| ==> PyIndex(cs[j], cols).Some?
    ensures ListAssignments(lists, rows, cols).Err? ==> ListAssignments(lists, rows, cols).error == IndexError
    ensures ListAssignments(lists, rows, cols).Ok? ==>
      var c1 := ListAssignments(lists, rows, cols).value;
      && |c1| == |lists.keys|
      && forall i :: 0 <= i < |lists.keys| ==>
           var v, cs := lists.keys[i], GetOr(lists, lists.keys[i]);
           && c1[i].AssignEq?
           && |c1[i].terms| == |cs|
           && forall j :: 0 <= j < |cs| ==> c1[i].terms[j] == (PyIndex(v, rows).value, PyIndex(cs[j], cols).value)
  {
    ListAssignmentsPrefixMeaning(lists, rows, cols, |lists.keys|);
    forall i | 0 <= i < |lists.keys|
      ensures KeyTerms(lists, i, rows, cols).Err? ==> KeyTerms(lists, i, rows, cols).error == IndexError
      ensures KeyTerms(lists, i, rows, cols).Ok? <==>
        var cs := GetOr(lists, lists.keys[i]);
        && (cs == [] || PyIndex(lists.keys[i], rows).Some?)
        && forall j :: 0 <= j < |cs| ==> PyIndex(cs[j], cols).Some?
      ensures KeyTerms(lists, i, rows, cols).Ok? ==>
        var v, cs := lists.keys[i], GetOr(lists, lists.keys[i]);
        var terms := KeyTerms(lists, i, rows, cols).value;
        |terms| == |cs| && forall j :: 0 <= j < |cs| ==> terms[j] == (PyIndex(v, rows).value, PyIndex(cs[j], cols).value)
    {
      ListTermsMeaning(lists.keys[i], GetOr(lists, lists.keys[i]), rows, cols);
    }
  }

  // ---------------------------------------------------------------------
  // The model and what its solutions mean

  /** Every term C1 produces names an existing variable. */
  lemma ListAssignmentsInShape(lists: Dict<int, seq<int>>, rows: nat, cols: nat)
    requires ListAssignments(lists, rows, cols).Ok?
    ensures forall i :: 0 <= i < |ListAssignments(lists, rows, cols).value| ==>
      InShape(rows, cols, ListAssignments(lists, rows, cols).value[i])
  {
    ListAssignmentsMeaning(lists, rows, cols);
  }

  /** The list-colouring model: C1 over the colour lists, then the shared
      C2 loop and objective, over |vertices| rows and |colors| columns. */
  function ListModel(inst: Instance): Result<Model, Failure> {
    var c1 := ListAssignments(inst.lists, |inst.vertices|, |inst.colors|);
    if c1.Err? then Err(c1.error) else Ok(ModelWith(|inst.vertices|, |inst.colors|, c1.value, inst.edges))
  }

  /** Variables, C1, C2 and the objective, in the order the script adds
      them. It fails exactly when C1 does, and otherwise yields a model
      whose constraints all name declared variables. */
  method BuildListModel(inst: Instance) returns (r: Result<Model, Failure>)
    ensures r == ListModel(inst)
    ensures r.Ok? <==> ListAssignments(inst.lists, |inst.vertices|, |inst.colors|).Ok?
    ensures r.Ok? ==> WellFormed(r.value) && r.value.rows == |inst.vertices| && r.value.cols == |inst.colors|
  {
    var rows, cols := |inst.vertices|, |inst.colors|;
    var c1 := AddListAssignments(inst.lists, rows, cols);
    if c1.Err? {
      return Err(c1.error);
    }
    var c2 := AddConflicts(rows, cols, inst.edges);
    r := Ok(Model(rows, cols, c1.value + c2, AllColumns(cols)));
    ListAssignmentsInShape(inst.lists, rows, cols);
    ModelWithWellFormed(rows, cols, c1.value, inst.edges);
  }

  /** A binary sum of 1 has an entry equal to 1. */
  lemma SumOneHasOne(s: seq<int>)
    requires IsBinary(s) && Sum(s) == 1
    ensures exists j :: 0 <= j < |s| && s[j] == 1
  {
    SumZero(s);
  }

  /** In a feasible point, the row of the i-th key has a 1 in the column
      of one of its listed values. */
  lemma ListedColumnMarked(inst: Instance, x: seq<seq<int>>, y: seq<int>, i: nat)
    requires ListModel(inst).Ok? && Feasible(ListModel(inst).value, x, y)
    requires i < |inst.lists.keys|
    ensures var v, cs := inst.lists.keys[i], GetOr(inst.lists, inst.lists.keys[i]);
      exists j :: 0 <= j < |cs| && PyIndex(v, |x|).Some? && PyIndex(cs[j], |inst.colors|).Some?
        && x[PyIndex(v, |x|).value][PyIndex(cs[j], |inst.colors|).value] == 1
  {
    var rows, cols := |inst.vertices|, |inst.colors|;
    var v, cs := inst.lists.keys[i], GetOr(inst.lists, inst.lists.keys[i]);
    var c1 := ListAssignments(inst.lists, rows, cols).value;
    ListAssignmentsMeaning(inst.lists, rows, cols);
    FeasibleSplits(rows, cols, c1, inst.edges, x, y);
    assert Holds(c1[i], x, y);
    var vals := TermValues(x, c1[i].terms);
    SumOneHasOne(vals);
    var j :| 0 <= j < |vals| && vals[j] == 1;
    assert vals[j] == x[PyIndex(v, rows).value][PyIndex(cs[j], cols).value];
  }

  /** What C1 promises for a listed vertex v (non-negative key, non-negative
      list values): its row has a 1 in the column of one of its listed
      values c, and the report then lists v under the label c + 1, not
      under c. */
  lemma ListedColourReported(inst: Instance, x: seq<seq<int>>, y: seq<int>, i: nat)
    requires ListModel(inst).Ok? && Feasible(ListModel(inst).value, x, y)
    requires i < |inst.lists.keys|
    requires forall c :: 0 <= c < |inst.colors| ==> inst.colors[c] == c + 1
    requires forall v :: 0 <= v < |inst.vertices| ==> inst.vertices[v] == v
    requires 0 <= inst.lists.keys[i]
    requires forall j :: 0 <= j < |GetOr(inst.lists, inst.lists.keys[i])| ==> GetOr(inst.lists, inst.lists.keys[i])[j] >= 0
    ensures var v, cs := inst.lists.keys[i], GetOr(inst.lists, inst.lists.keys[i]);
      exists j :: 0 <= j < |cs| && v < |x| && cs[j] < |inst.colors| && x[v][cs[j]] == 1
        && v in GetOr(VertexColorOf(inst.vertices, inst.colors, x), cs[j] + 1)
  {
    var v, cs := inst.lists.keys[i], GetOr(inst.lists, inst.lists.keys[i]);
    ListedColumnMarked(inst, x, y, i);
    var j :| 0 <= j < |cs| && PyIndex(v, |x|).Some? && PyIndex(cs[j], |inst.colors|).Some?
        && x[PyIndex(v, |x|).value][PyIndex(cs[j], |inst.colors|).value] == 1;
    var c: nat := cs[j];
    assert x[v][c] == 1;
    assert inst.colors[c] == c + 1;
    VertexColorMembers(inst.vertices, inst.colors, x, c, v);
  }

  /** A listed vertex with an empty list gets the equality `0 == 1`, so no
      point is feasible. */
  lemma EmptyListInfeasible(inst: Instance, x: seq<seq<int>>, y: seq<int>, i: nat)
    requires ListModel(inst).Ok? && i < |inst.lists.keys|
    requires GetOr(inst.lists, inst.lists.keys[i]) == []
    ensures !Feasible(ListModel(inst).value, x, y)
  {
    if Feasible(ListModel(inst).value, x, y) {
      ListedColumnMarked(inst, x, y, i);
      assert false;
    }
  }

  /** Because list values are read as column positions and the columns
      stand for the labels 1 .. k-1, listing the largest label k-1 (or
      anything beyond) makes `x[v][c]` fail with an IndexError. */
  lemma LargestLabelFails(lists: Dict<int, seq<int>>, rows: nat, cols: nat, v: int, c: int)
    requires v in lists.keys && c in GetOr(lists, v) && c >= cols
    ensures ListAssignments(lists, rows, cols) == Err(IndexError)
  {
    ListAssignmentsMeaning(lists, rows, cols);
    var i :| 0 <= i < |lists.keys| && lists.keys[i] == v;
    var j :| 0 <= j < |GetOr(lists, v)| && GetOr(lists, v)[j] == c;
  }

  /** C1 constrains only the listed columns of listed rows, and only C2
      ties x to y. With k = 3, vertex 0 limited to [1] and no edges, the
      point that gives vertex 0 both columns, vertices 1 and 2 none, and
      uses no y at all is feasible with objective 0: the report then says no
      colour is used, puts vertex 0 under both labels and leaves out
      vertices 1 and 2. */
  lemma UnlistedVerticesFree(inst: Instance, x: seq<seq<int>>, y: seq<int>)
    requires inst == Instance([0, 1, 2], [1, 2], [], Put(Empty(), 0, [1]))
    requires x == [[1, 1], [0, 0], [0, 0]] && y == [0, 0]
    ensures ListModel(inst).Ok?
    ensures Feasible(ListModel(inst).value, x, y)
    ensures ObjectiveValue(ListModel(inst).value, y) == 0
    ensures UsedColors(inst.colors, y) == []
    ensures 0 in GetOr(VertexColorOf(inst.vertices, inst.colors, x), 1)
    ensures 0 in GetOr(VertexColorOf(inst.vertices, inst.colors, x), 2)
    ensures forall c :: 0 <= c < |inst.colors| ==>
      && 1 !in GetOr(VertexColorOf(inst.vertices, inst.colors, x), inst.colors[c])
      && 2 !in GetOr(VertexColorOf(inst.vertices, inst.colors, x), inst.colors[c])
  {
    ExampleModel(inst, x, y);
    ExampleUnused(inst.colors, y);
    ExampleReport(inst.vertices, inst.colors, x);
  }

  lemma ExampleModel(inst: Instance, x: seq<seq<int>>, y: seq<int>)
    requires inst == Instance([0, 1, 2], [1, 2], [], Put(Empty(), 0, [1]))
    requires x == [[1, 1], [0, 0], [0, 0]] && y == [0, 0]
    ensures ListModel(inst).Ok?
    ensures Feasible(ListModel(inst).value, x, y) && ObjectiveValue(ListModel(inst).value, y) == 0
  {
    ExampleAssignments(inst.lists);
    ExampleFeasible(|inst.vertices|, |inst.colors|, [AssignEq([(0, 1)])], inst.edges, x, y);
  }

  lemma ExampleUnused(colors: seq<int>, y: seq<int>)
    requires colors == [1, 2] && y == [0, 0]
    ensures UsedColors(colors, y) == []
  {
    assert UsedPrefix(colors, y, 1) == [];
  }

  lemma ExampleAssignments(lists: Dict<int, seq<int>>)
    requires lists == Put(Empty(), 0, [1])
    ensures ListAssignments(lists, 3, 2) == Ok([AssignEq([(0, 1)])])
  {
    assert lists.keys == [0] && GetOr(lists, 0) == [1];
    ListAssignmentsMeaning(lists, 3, 2);
    var c1 := ListAssignments(lists, 3, 2).value;
    assert |c1| == 1 && c1[0].terms == [(0, 1)];
    assert c1 == [AssignEq([(0, 1)])];
  }

  lemma ExampleFeasible(rows: nat, cols: nat, c1: seq<Constraint>, edges: seq<seq<int>>, x: seq<seq<int>>, y: seq<int>)
    requires rows == 3 && cols == 2
    requires c1 == [AssignEq([(0, 1)])] && edges == []
    requires x == [[1, 1], [0, 0], [0, 0]] && y == [0, 0]
    ensures Feasible(ModelWith(rows, cols, c1, edges), x, y) && ObjectiveValue(ModelWith(rows, cols, c1, edges), y) == 0
  {
    ExamplePoint(rows, cols, c1, edges, x, y);
    FeasibleJoins(rows, cols, c1, edges, x, y);
    ObjectiveIsSum(rows, cols, c1, edges, y);
    assert Sum([0, 0]) == 0;
  }

  /** The parts of feasibility for the point of `ExampleFeasible`. */
  lemma ExamplePoint(rows: nat, cols: nat, c1: seq<Constraint>, edges: seq<seq<int>>, x: seq<seq<int>>, y: seq<int>)
    requires rows == 3 && cols == 2
    requires c1 == [AssignEq([(0, 1)])] && edges == []
    requires x == [[1, 1], [0, 0], [0, 0]] && y == [0, 0]
    ensures forall i :: 0 <= i < |c1| ==> InShape(rows, cols, c1[i])
    ensures Fits(rows, cols, x, y) && Binary(x, y)
    ensures C1Holds(c1, x, y) && ConflictsHold(rows, cols, edges, x, y)
  {
    assert InShape(rows, cols, c1[0]);
    assert TermValues(x, c1[0].terms) == [1];
    assert Sum([1]) == 1;
    assert Holds(c1[0], x, y);
  }

  lemma ExampleReport(vertices: seq<int>, colors: seq<int>, x: seq<seq<int>>)
    requires vertices == [0, 1, 2] && colors == [1, 2] && x == [[1, 1], [0, 0], [0, 0]]
    ensures 0 in GetOr(VertexColorOf(vertices, colors, x), 1)
    ensures 0 in GetOr(VertexColorOf(vertices, colors, x), 2)
    ensures forall c :: 0 <= c < |colors| ==>
      && 1 !in GetOr(VertexColorOf(vertices, colors, x), colors[c])
      && 2 !in GetOr(VertexColorOf(vertices, colors, x), colors[c])
  {
    assert x[0][0] == 1 && x[0][1] == 1 && vertices[0] == 0;
    assert colors[0] == 1 && colors[1] == 2;
    VertexColorMembers(vertices, colors, x, 0, 0);
    VertexColorMembers(vertices, colors, x, 1, 0);
    forall c | 0 <= c < |colors|
      ensures 1 !in GetOr(VertexColorOf(vertices, colors, x), colors[c])
      ensures 2 !in GetOr(VertexColorOf(vertices, colors, x), colors[c])
    {
      VertexColorMembers(vertices, colors, x, c, 1);
      VertexColorMembers(vertices, colors, x, c, 2);
    }
  }

  // ---------------------------------------------------------------------
  // The output file name

  /** `f"{filename.split('.')[0]}_output.txt"`: everything before the first
      dot (the whole name when there is none), then the suffix. */
  function OutputName(filename: string): (r: string)
    ensures |r| >= 11 && r[|r| - 11..] == "_output.txt"
    ensures var stem := r[..|r| - 11];
      && |stem| <= |filename| && stem == filename[..|stem|]
      && '.' !in stem
      && (|stem| < |filename| ==> filename[|stem|] == '.')
      && (|stem| == |filename| <==> '.' !in filename)
  {
    var stem := Split(filename, '.')[0];
    assert (stem + "_output.txt")[..|stem|] == stem;
    stem + "_output.txt"
  }
}
