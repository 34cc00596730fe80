/** The fixed-offset script, for its one input file. After the first seven
    lines are deleted, every remaining line is an edge record read by
    character position:

      ver   = [int(line[2:4]) for line in lines]
      edges = [(int(line[2:4]), int(line[4:-1])) for line in lines]

    The vertices are the distinct first endpoints in order of first
    appearance, followed by 30 whatever they are; the palette is the labels
    1 .. 30. The model is the standard one over those rows and 30 columns. */
module FullIns {
  import opened Common
  import opened PyBuiltins
  import opened OrderedDict
  import opened LineScan
  import opened Ilp
  import EdgeLines

  /** The vertex the script appends after the distinct first endpoints. */
  const Appended := 30

  /** Palette size: `colors = list(range(1, 31))`. */
  const PaletteSize := 30

  // ---------------------------------------------------------------------
  // The records

  /** What `del lines[0:7]` leaves: every line after the seventh. */
  function Records(lines: seq<string>): (r: seq<string>)
    ensures |r| == if |lines| < 7 then 0 else |lines| - 7
    ensures forall i :: 0 <= i < |r| ==> r[i] == lines[i + 7]
  {
    lines[if |lines| < 7 then |lines| else 7..]
  }

  /** `int(line[2:4])`, or the ValueError of int() on those characters. */
  function FirstEndpoint(line: string): Result<int, Failure> {
    var a := ParseInt(Slice(line, 2, 4));
    if a.None? then Err(ValueError(Slice(line, 2, 4))) else Ok(a.value)
  }

  /** `(int(line[2:4]), int(line[4:-1]))`: the second endpoint drops the
      line's last character, the newline of every line but possibly the
      last. */
  function Record(line: string): Result<seq<int>, Failure> {
    var a := ParseInt(Slice(line, 2, 4));
    if a.None? then Err(ValueError(Slice(line, 2, 4)))
    else
      var b := ParseInt(Slice(line, 4, -1));
      if b.None? then Err(ValueError(Slice(line, 4, -1))) else Ok([a.value, b.value])
  }

  /** Reading the edge line for (a, b) by position gives back the pair
      whenever a takes at most the two columns 2 and 3: a one-digit a
      leaves a space in `line[2:4]`, which int() ignores, and a two-digit
      a leaves one at the start of `line[4:-1]`. */
  lemma RecordOfEdgeText(a: int, b: int)
    requires 0 <= a <= 99
    ensures Record(EdgeLines.EdgeText(a, b)) == Ok([a, b])
  {
    ParseShow(a);
    ParseShow(b);
    ShowShort(a);
    RecordOfWords(Show(a), Show(b), a, b);
  }

  /** A first numeral of one or two characters and any second numeral. */
  lemma RecordOfWords(first: string, second: string, a: int, b: int)
    requires 1 <= |first| <= 2
    requires ParseInt(first) == Some(a) && ParseInt(second) == Some(b)
    ensures Record("e " + first + " " + second + "\n") == Ok([a, b])
  {
    EdgeTextSlices(first, second);
    if |first| == 1 {
      ParseTrailingSpace(first);
    } else {
      ParseLeadingSpace(' ', second);
    }
    RecordOfSlices("e " + first + " " + second + "\n", a, b);
  }

  /** Where the two numerals of an edge line fall in columns 2 and 3 and
      in the rest of the line before its last character. */
  lemma EdgeTextSlices(first: string, second: string)
    requires 1 <= |first| <= 2
    ensures var line := "e " + first + " " + second + "\n";
      && (|first| == 1 ==> Slice(line, 2, 4) == first + [' '] && Slice(line, 4, -1) == second)
      && (|first| == 2 ==> Slice(line, 2, 4) == first && Slice(line, 4, -1) == [' '] + second)
  {
    var line := "e " + first + " " + second + "\n";
    if |first| == 1 {
      assert line[2..4] == first + [' '];
      assert line[4..|line| - 1] == second;
    } else {
      assert line[2..4] == first;
      assert line[4..|line| - 1] == [' '] + second;
    }
  }

  lemma RecordOfSlices(line: string, a: int, b: int)
    requires ParseInt(Slice(line, 2, 4)) == Some(a) && ParseInt(Slice(line, 4, -1)) == Some(b)
    ensures Record(line) == Ok([a, b])
  {
  }

  /** str() of 0 .. 99 has one or two characters. */
  lemma ShowShort(a: int)
    requires 0 <= a <= 99
    ensures 1 <= |Show(a)| <= 2
  {
    if a >= 10 {
      assert ShowNat(a) == ShowNat(a / 10) + [Digit(a % 10)];
    }
  }

  // ---------------------------------------------------------------------
  // The vertices

  /** The dedup loop followed by `vertices.append(30)`. */
  method DistinctThenAppended(ver: seq<int>) returns (vertices: seq<int>)
    ensures vertices == Dedup(ver) + [Appended]
  {
    vertices := [];
    var i := 0;
    while i < |ver|
      invariant 0 <= i <= |ver|
      invariant vertices == Dedup(ver[..i])
    {
      assert ver[..i + 1][..i] == ver[..i];
      if ver[i] !in vertices {
        vertices := vertices + [ver[i]];
      }
      i := i + 1;
    }
    assert ver[..i] == ver;
    vertices := vertices + [Appended];
  }

  /** Every first endpoint is a vertex once, in order of first appearance,
      and 30 comes last; so 30 is listed twice exactly when it is also a
      first endpoint, and every other label at most once. */
  lemma VerticesMeaning(ver: seq<int>, u: int)
    ensures var vertices := Dedup(ver) + [Appended];
      && vertices[|vertices| - 1] == Appended
      && (u in vertices <==> u in ver || u == Appended)
      && multiset(vertices)[u] == (if u in ver then 1 else 0) + (if u == Appended then 1 else 0)
  {
    DistinctCount(Dedup(ver), u);
  }

  // ---------------------------------------------------------------------
  // The instance

  datatype Instance = Instance(vertices: seq<int>, colors: seq<int>, edges: seq<seq<int>>)

  /** The header drop, the two comprehensions and the vertex list, failing
      with the first failure in the order the script meets them: a bad
      first endpoint anywhere before a bad second endpoint anywhere. */
  function ParseSpec(lines: seq<string>): Result<Instance, Failure> {
    var records := Records(lines);
    var ver := Collect(records, Every, FirstEndpoint);
    if ver.Err? then Err(ver.error)
    else
      var edges := Collect(records, Every, Record);
      if edges.Err? then Err(edges.error)
      else Ok(Instance(Dedup(ver.value) + [Appended], Range(1, PaletteSize + 1), edges.value))
  }

  method Parse(lines: seq<string>) returns (r: Result<Instance, Failure>)
    ensures r == ParseSpec(lines)
  {
    var records := lines;
    records := records[if |records| < 7 then |records| else 7..];
    var colors := Range(1, PaletteSize + 1);
    var ver := Collect(records, Every, FirstEndpoint);
    if ver.Err? {
      return Err(ver.error);
    }
    var vertices := DistinctThenAppended(ver.value);
    var edges := Collect(records, Every, Record);
    if edges.Err? {
      return Err(edges.error);
    }
    return Ok(Instance(vertices, colors, edges.value));
  }

  /** A record that reads gives two integers, the first being what the
      `ver` comprehension reads from the same line. */
  lemma RecordMeaning(line: string)
    ensures Record(line).Ok? ==>
      && |Record(line).value| == 2
      && ParseInt(Slice(line, 2, 4)) == Some(Record(line).value[0])
      && ParseInt(Slice(line, 4, -1)) == Some(Record(line).value[1])
      && FirstEndpoint(line) == Ok(Record(line).value[0])
    ensures FirstEndpoint(line).Err? ==> Record(line) == Err(FirstEndpoint(line).error)
  {
  }

  /** The first endpoint of every pair. */
  function FirstEndpoints(edges: seq<seq<int>>): (r: seq<int>)
    requires forall i :: 0 <= i < |edges| ==> |edges[i]| == 2
    ensures |r| == |edges| && forall i :: 0 <= i < |edges| ==> r[i] == edges[i][0]
  {
    seq(|edges|, i requires 0 <= i < |edges| => edges[i][0])
  }

  /** The `edges` comprehension, when it succeeds, holds one pair per
      record, in order, each what Record reads from its line. */
  lemma EdgesMeaning(records: seq<string>)
    requires Collect(records, Every, Record).Ok?
    ensures var edges := Collect(records, Every, Record).value;
      && |edges| == |records|
      && forall i :: 0 <= i < |records| ==> Record(records[i]) == Ok(edges[i]) && |edges[i]| == 2
  {
    SelectedEvery(records);
    CollectOk(records, Every, Record);
    forall i | 0 <= i < |records|
      ensures |Collect(records, Every, Record).value[i]| == 2
    {
      RecordMeaning(records[i]);
    }
  }

  /** When both comprehensions succeed, `ver` is the list of first
      endpoints of `edges`. */
  lemma FirstEndpointsMeaning(records: seq<string>)
    requires Collect(records, Every, FirstEndpoint).Ok? && Collect(records, Every, Record).Ok?
    ensures var edges := Collect(records, Every, Record).value;
      && (forall i :: 0 <= i < |edges| ==> |edges[i]| == 2)
      && Collect(records, Every, FirstEndpoint).value == FirstEndpoints(edges)
  {
    EdgesMeaning(records);
    SelectedEvery(records);
    CollectOk(records, Every, FirstEndpoint);
    var ver := Collect(records, Every, FirstEndpoint).value;
    var edges := Collect(records, Every, Record).value;
    forall i | 0 <= i < |records|
      ensures ver[i] == edges[i][0]
    {
      RecordMeaning(records[i]);
    }
  }

  /** A successful parse has one pair per line after the header, in line
      order, each what Record reads from its line; the vertices are the
      first endpoints of those pairs, each once in order of first
      appearance, then 30; the palette is 1 .. 30. */
  lemma ParseMeaning(lines: seq<string>)
    requires ParseSpec(lines).Ok?
    ensures var inst, records := ParseSpec(lines).value, Records(lines);
      && |inst.edges| == |records|
      && (forall i :: 0 <= i < |records| ==> Record(records[i]) == Ok(inst.edges[i]) && |inst.edges[i]| == 2)
      && inst.vertices == Dedup(FirstEndpoints(inst.edges)) + [Appended]
      && |inst.colors| == PaletteSize && (forall c :: 0 <= c < |inst.colors| ==> inst.colors[c] == c + 1)
  {
    EdgesMeaning(Records(lines));
    FirstEndpointsMeaning(Records(lines));
  }

  /** The characters each endpoint is read from: 2 and 3 for the first,
      4 up to but not including the last character for the second. A
      record whose line ends in a newline reads its second endpoint from
      everything after position 4; a last line without a newline loses its
      final character, a digit of the second endpoint, instead. */
  lemma EndpointText(body: string)
    requires |body| >= 4
    ensures Slice(body + "\n", 2, 4) == body[2..4]
    ensures Slice(body + "\n", 4, -1) == body[4..]
    ensures |body| >= 5 ==> Slice(body, 4, -1) == body[4..|body| - 1]
    ensures |body| >= 5 ==> Slice(body, 4, -1) + [body[|body| - 1]] == body[4..]
  {
    assert (body + "\n")[2..4] == body[2..4];
    assert (body + "\n")[4..|body|] == body[4..];
  }

  // ---------------------------------------------------------------------
  // The model

  /** Variables, C1 over every entry of the vertex list (30 twice when it
      is a first endpoint), C2 and the objective over the 30 columns. */
  method BuildModel(inst: Instance) returns (m: Model)
    requires |inst.colors| == PaletteSize
    ensures m == StandardModel(|inst.vertices|, PaletteSize, inst.edges)
    ensures WellFormed(m) && |m.objective| == PaletteSize
  {
    m := BuildStandard(|inst.vertices|, |inst.colors|, inst.edges);
  }
}
