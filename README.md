# Graph colouring as a binary ILP: a Dafny model of the three instance scripts

The `Instances` directory holds three Python scripts that read a graph,
build a binary integer program for colouring it, hand it to Gurobi, and write
out the colours the solver used:

- `list_colourig_all_inst.py` is the list-colouring script. For every file
  named in a manifest it makes three passes over the lines:
  - `n=<k>` lines give the vertex count; vertices are `0 .. k-1` and colours
    are `1 .. k-1`;
  - `e` lines give edge tuples;
  - `vertex: c1<TAB>c2...` lines give each vertex its list of permitted
    values.

  C1 is one equality per listed vertex, summing `x[v][c]` over the listed
  values `c`.
- `100_instances_sorted.py` reads DIMACS `.col` files. The third word of the
  first `p` line gives `n`; vertices and colours are both `1 .. n`. C1 puts
  exactly one 1 in every row.
- `1-FullIns_3.col.py` reads one file by fixed character offsets after a
  seven-line header. The vertices are the distinct first endpoints followed
  by 30, and the palette is `1 .. 30`.

All three share the same pieces:
- C2 is the double loop over row positions `v1, v2` that adds
  `x[v1][c] + x[v2][c] <= y[c]` for every column when `(v1, v2) in edges`.
- The objective is the sum of `y`.
- After an optimal solve, `colors_used` and `vertex_color` are extracted.

The model follows the code as written. It keeps these behaviours:
- Tuples of labels are compared with row positions.
- List values are used as column indices.
- The vertex 30 is appended unconditionally.
- Membership in `edges` is a directed test.
- Every exception aborts the run.

Modules, one per file:

- `Common` (`common.dfy`): `Option`, `Result` and the two failures the
  model keeps: `ValueError` (from `int()`) and `IndexError`.
- `LineScan` (`line_scan.dfy`): the loop shared by all the parsers, "for
  every line the selector picks, append the converted value, stopping at the
  first failure".
- `PyBuiltins` (`pybuiltins.dfy`): the parts of Python the scripts rely on.
  These are `str.startswith`, `strip`, `split` with and without a separator,
  `int()` on text (whitespace, sign, digit groups with `_`), `str()` of an
  int, list indexing with negative indices, slicing and `range`.
- `OrderedDict` (`ordered_dict.dfy`): Python dicts with insertion order, and
  order-preserving de-duplication.
- `EdgeLines` (`edge_lines.dfy`): the `e` line reader that two scripts
  share.
- `Ilp` (`ilp.dfy`): the ILP as data, with these parts:
  - constraints `AssignEq(terms)` and `Conflict(row1, row2, col)`;
  - the C1/C2/objective builders;
  - feasibility of a 0/1 point.
- `Extraction` (`extraction.dfy`): the `colors_used` and `vertex_color` loops
  and the status-gated report.
- `ListColouring` (`list_colouring.dfy`), `Dimacs` (`dimacs.dfy`) and
  `FullIns` (`full_ins.dfy`): the three scripts.

Where what the scripts evidently intend differs from what their code does,
the model follows the code:

- **C1 covers only listed vertices.** C1 in the list script is generated only
  for vertices that have a `:` line. No C1 equality is generated for the row
  of an unlisted vertex, unless a negative key aliases it: key `-1` puts its
  equality on row `k-1`. C2 still applies to every row. With no edges, an
  unlisted vertex is therefore unconstrained (`UnlistedVerticesFree`).
- **A `:` line never gives an empty list.** A line with nothing after its
  colon splits into the single piece `""`, and `int("")` raises a
  ValueError (`EmptyListValueError`). Every stored list therefore has at
  least one value (`ParsedListsNonEmpty`). `EmptyListInfeasible` describes
  the constraint builder on its own, given an empty list from elsewhere.
- **List values are column positions, not labels.** The listed values index
  the columns directly. A listed value `c` therefore selects the colour
  labelled `c + 1`, and listing the largest label fails with an IndexError
  (`ListedColourReported`, `LargestLabelFails`).
- **C2 compares label tuples with row positions.** C2 tests tuples of vertex
  labels against pairs of row positions. In the DIMACS script a tuple
  `(a, b)` therefore separates the vertices labelled `a + 1` and `b + 1`,
  and tuples naming `n` are ignored (`EdgeSeparatesNextLabels`,
  `LastLabelIgnored`, `TriangleUnderConstrained`).
- **A vertex without a conflict pair needs no colour that counts.** C1
  involves only x, and only C2 ties a row's x to y. A vertex that is in no
  tuple can sit in a column whose y stays 0. On an edgeless graph the
  objective, and with it `len(colors_used)`, can be 0 while `vertex_color`
  shows every vertex coloured (`EdgelessObjectiveZero`).
- **Edge orientation does not matter.** The membership test is directed, but
  the double loop visits both orders and the inequality is symmetric. Adding
  the reverse of every tuple therefore changes no feasible point
  (`OrientationIrrelevant`).

## Model

| member | source | states |
|---|---|---|
| LineScan.Scan | Instances/100_instances_sorted.py:20-26 | The selective reading loop returns the converted values of the selected lines in file order, or the failure it stops at (the `Collect` definition) |
| LineScan.CollectOk | Instances/100_instances_sorted.py:20-26 | The scan succeeds exactly when every selected line converts, and then holds one value per selected line, each the conversion of that line |
| LineScan.CollectErr | Instances/100_instances_sorted.py:20-26 | A failing scan reports the failure of the first selected line that fails; every earlier selected line converts |
| LineScan.SelectedFirst | Instances/100_instances_sorted.py:12-17 | Something is selected iff some line satisfies the selector, and the first selected line is the earliest such line |
| PyBuiltins.Split | Instances/list_colourig_all_inst.py:30 | `str.split(sep)`: at least one piece, no piece holds the separator, one piece iff the separator is absent, the first piece is everything before the first separator |
| PyBuiltins.SplitJoin | Instances/list_colourig_all_inst.py:30 | Joining the pieces of a split with the same separator gives back the text |
| PyBuiltins.LStrip | Instances/list_colourig_all_inst.py:31 | Leading strip: removes exactly a prefix of whitespace characters, and leaves no leading whitespace |
| PyBuiltins.RStrip | Instances/list_colourig_all_inst.py:32 | Trailing strip: removes exactly a suffix of whitespace characters, and leaves no trailing whitespace |
| PyBuiltins.SplitWs | Instances/100_instances_sorted.py:15 | `str.split()` yields non-empty words without whitespace, and no words exactly when the text is all whitespace. `SplitWsChars`, `SplitWsWord` and `SplitWsSpace` state where it splits |
| PyBuiltins.SplitWsChars | Instances/100_instances_sorted.py:15 | The words of `str.split()`, put together, are the non-whitespace characters of the text in order |
| PyBuiltins.SplitWsWord | Instances/100_instances_sorted.py:15 | A non-empty word followed by whitespace or by the end is the first word, and splitting goes on with what follows it |
| PyBuiltins.SplitWsSpace | Instances/100_instances_sorted.py:15 | A leading whitespace character adds no word |
| PyBuiltins.ParseLeadingSpace | Instances/1-FullIns_3.col.py:18 | `int()` ignores a whitespace character it skips (not U+001C to U+001F) in front of its text |
| PyBuiltins.ParseTrailingSpace | Instances/1-FullIns_3.col.py:12 | `int()` ignores a space after any text |
| PyBuiltins.IntRStrip | Instances/list_colourig_all_inst.py:33 | The trailing strip `int()` applies removes exactly a suffix of the whitespace it skips, and leaves none of it at the end |
| PyBuiltins.SeparatorsNotSkipped | Instances/list_colourig_all_inst.py:13 | A digit preceded by U+001C or followed by U+001F is not an integer literal: `int()` raises ValueError |
| PyBuiltins.ParseShow | Instances/100_instances_sorted.py:25 | `int(str(n)) == n` for every integer, negative ones included |
| PyBuiltins.MapIntMeaning | Instances/100_instances_sorted.py:24-25 | `map(int, words)` succeeds iff every word parses, and then gives each word's value in order; otherwise it fails with the ValueError of the first word that does not parse |
| PyBuiltins.MapIntOfEmpty | Instances/list_colourig_all_inst.py:32-33 | Converting the single empty piece fails with `ValueError("")` |
| PyBuiltins.MapIntOfParsed | Instances/100_instances_sorted.py:24-25 | Words that all parse to given values convert to exactly those values |
| PyBuiltins.PyIndex | Instances/list_colourig_all_inst.py:56 | Indexing a list of length n with i succeeds iff `-n <= i < n`; a negative index counts from the end |
| PyBuiltins.Range | Instances/100_instances_sorted.py:17-18 | `range(lo, hi)` lists `lo, lo+1, ..., hi-1`, and is empty when `hi <= lo` |
| OrderedDict.Put | Instances/list_colourig_all_inst.py:34 | `d[k] = v`: the key reads v, every other key is unchanged, a new key goes to the end of the order, an existing key keeps its place |
| OrderedDict.Append | Instances/list_colourig_all_inst.py:100-102 | Creating the list on first use, then appending: only k's list grows, by v at the end; a new key is added last |
| OrderedDict.AppendKeysDedup | Instances/list_colourig_all_inst.py:100-102 | If a dict's keys are the distinct elements of s in first-appearance order, they stay so after appending under k and extending s by k |
| OrderedDict.Dedup | Instances/1-FullIns_3.col.py:13-15 | The `if x not in vertices` loop keeps every element, and lists each one once |
| OrderedDict.DedupOrder | Instances/1-FullIns_3.col.py:13-15 | The de-duplicated list is in order of first appearance |
| OrderedDict.DistinctCount | Instances/1-FullIns_3.col.py:13-16 | A repeat-free list holds each value once or not at all |
| EdgeLines.AfterMarker | Instances/100_instances_sorted.py:24 | `line.split()[1:]`: every word after the first, in order |
| EdgeLines.ReadEdges | Instances/100_instances_sorted.py:20-26 | The `e` loop succeeds iff every `e` line converts. It then yields one tuple per `e` line, in file order, holding the integer value of each word after the marker |
| EdgeLines.EdgeTextRead | Instances/100_instances_sorted.py:23-25 | Reading the line `e a b` gives back the tuple `(a, b)` for all integers a, b |
| ListColouring.VertexCountFirst | Instances/list_colourig_all_inst.py:10-16 | The count is read iff every `n` line has an integer after its `=` and some `n` line exists; it is the value of the first `n` line; without `n` lines the lookup is an IndexError |
| ListColouring.ListEntryNonEmpty | Instances/list_colourig_all_inst.py:30-33 | A `:` line that converts always gives a list of at least one value |
| ListColouring.EmptyListValueError | Instances/list_colourig_all_inst.py:30-33 | A `:` line whose key parses but which has only whitespace after its colon fails with `ValueError("")` instead of giving an empty list |
| ListColouring.ListsNonEmpty | Instances/list_colourig_all_inst.py:26-34 | Every list the third pass stores has at least one value |
| ListColouring.ReadLists | Instances/list_colourig_all_inst.py:26-34 | The third pass returns the dict the `:` lines build, or the failure of the first `:` line that fails |
| ListColouring.PutAllKeys | Instances/list_colourig_all_inst.py:27-34 | The dict lists each vertex named on a `:` line once, in order of its first line |
| ListColouring.PutAllHas | Instances/list_colourig_all_inst.py:27-34 | A vertex has an entry iff some `:` line names it |
| ListColouring.PutAllLastWins | Instances/list_colourig_all_inst.py:34 | A vertex holds the list of the last line that names it |
| ListColouring.ListsMeaning | Instances/list_colourig_all_inst.py:26-34 | The third pass succeeds iff every `:` line converts. It then reads one entry per `:` line, and the dict has the key order, membership and last-wins values above |
| ListColouring.Parse | Instances/list_colourig_all_inst.py:8-34 | The three passes, failing with the first failure in the order the script meets them |
| ListColouring.ParsedListsNonEmpty | Instances/list_colourig_all_inst.py:26-34 | In a parsed instance every listed vertex has a non-empty list, so the empty list of `EmptyListInfeasible` never comes from a file |
| ListColouring.InstanceShape | Instances/list_colourig_all_inst.py:15-16 | Vertices are `0 .. k-1`, colours `1 .. k-1`, so there is one colour fewer than vertices |
| ListColouring.ListTermsMeaning | Instances/list_colourig_all_inst.py:56 | The C1 sum for one vertex succeeds iff its list is empty or the vertex is a valid row index, and every listed value is a valid column index. It then has one term `x[v][c]` per listed value, in order |
| ListColouring.AddListAssignments | Instances/list_colourig_all_inst.py:54-56 | The C1 loop returns one equality per key in key order, or the IndexError of the first key that fails |
| ListColouring.ListAssignmentsMeaning | Instances/list_colourig_all_inst.py:54-56 | C1 fails only with an IndexError, and exactly when some key's terms are out of range. Otherwise it has one equality per key, summing that key's listed columns of that key's row |
| ListColouring.ListAssignmentsInShape | Instances/list_colourig_all_inst.py:54-56 | Every C1 term names a declared variable |
| ListColouring.BuildListModel | Instances/list_colourig_all_inst.py:41-66 | Building the model fails exactly when C1 does. Otherwise every constraint names declared variables, with one row per vertex and one column per colour |
| ListColouring.ListedColumnMarked | Instances/list_colourig_all_inst.py:56 | In a feasible point every listed vertex has a 1 in the column of one of its listed values |
| ListColouring.ListedColourReported | Instances/list_colourig_all_inst.py:54-56 | For a listed vertex v with non-negative values, some listed value c has `x[v][c] == 1`, and the report lists v under the label c + 1 |
| ListColouring.EmptyListInfeasible | Instances/list_colourig_all_inst.py:56 | For the constraint builder alone: a listed vertex with an empty list gets the equality `0 == 1`, so the model is infeasible |
| ListColouring.LargestLabelFails | Instances/list_colourig_all_inst.py:56 | Listing a value at or beyond the number of colours (the largest label k-1 included) makes C1 fail with an IndexError |
| ListColouring.UnlistedVerticesFree | Instances/list_colourig_all_inst.py:52-66 | With k = 3, vertex 0 limited to [1] and no edges, a point giving vertex 0 both columns and using no y is feasible with objective 0. The report then shows no colour used, vertex 0 under both labels, and vertices 1 and 2 nowhere |
| ListColouring.OutputName | Instances/list_colourig_all_inst.py:85 | The output name is the file name up to its first dot (the whole name without a dot), followed by `_output.txt` |
| Dimacs.VertexCountFirst | Instances/100_instances_sorted.py:11-17 | n is read iff every `p` line has at least three words, some `p` line exists and the third word of the first one parses; n is then its integer value. If that word does not parse, the failure is its ValueError. A `p` line with fewer than three words, or no `p` line at all, is an IndexError |
| Dimacs.Parse | Instances/100_instances_sorted.py:10-26 | Both passes, failing with the first failure in the order the script meets them |
| Dimacs.InstanceShape | Instances/100_instances_sorted.py:17-18 | Vertices and colours are the same list `1 .. n`, and the edges are what the `e` loop read |
| Dimacs.BuildModel | Instances/100_instances_sorted.py:32-56 | The model is the standard one, with one row per vertex and one column per colour; all its constraints name declared variables |
| Dimacs.EdgeSeparatesNextLabels | Instances/100_instances_sorted.py:48-53 | In a feasible point, a tuple `(a, b)` of positions below n keeps the vertices labelled a + 1 and b + 1 out of one colour in the report |
| Dimacs.LastLabelIgnored | Instances/100_instances_sorted.py:48-53 | A tuple naming the label n adds no constraint |
| Dimacs.TriangleUnderConstrained | Instances/100_instances_sorted.py:48-53 | For the triangle with n = 3, a point that gives the adjacent vertices 1 and 2 one colour is feasible with objective 2, and the report shows it |
| Dimacs.EveryLabelOnce | Instances/100_instances_sorted.py:77-83 | In a feasible point every vertex label is reported under exactly one colour: the one whose x is 1 |
| FullIns.Records | Instances/1-FullIns_3.col.py:7 | `del lines[0:7]` keeps every line after the seventh, and nothing when there are fewer |
| FullIns.RecordOfEdgeText | Instances/1-FullIns_3.col.py:18 | Reading the line `e a b` by position gives back `(a, b)` for every first endpoint `0 <= a <= 99` and every integer b |
| FullIns.RecordOfWords | Instances/1-FullIns_3.col.py:18 | Reading `e <first> <second>` by position gives the values of both numerals when the first has one or two characters |
| FullIns.EdgeTextSlices | Instances/1-FullIns_3.col.py:18 | `line[2:4]` is the first numeral (a one-character numeral followed by a space), and `line[4:-1]` is the second numeral (preceded by a space when the first has two characters) |
| FullIns.DistinctThenAppended | Instances/1-FullIns_3.col.py:11-16 | The vertex list is the distinct first endpoints in order of first appearance, followed by 30 |
| FullIns.VerticesMeaning | Instances/1-FullIns_3.col.py:11-16 | 30 comes last. A label is a vertex iff it is a first endpoint or 30. 30 is listed twice exactly when it is also a first endpoint; every other label is listed at most once |
| FullIns.Parse | Instances/1-FullIns_3.col.py:5-18 | Header drop, both comprehensions and the vertex list, failing with the first failure in the order the script meets them |
| FullIns.RecordMeaning | Instances/1-FullIns_3.col.py:12-18 | A record that reads gives the two integers at positions 2-3 and 4 to the last character, the first being what `ver` reads from the same line; a bad first endpoint fails both |
| FullIns.EdgesMeaning | Instances/1-FullIns_3.col.py:18 | The `edges` comprehension yields one pair per record, in order |
| FullIns.FirstEndpointsMeaning | Instances/1-FullIns_3.col.py:12-18 | `ver` is the list of first endpoints of `edges` |
| FullIns.ParseMeaning | Instances/1-FullIns_3.col.py:7-18 | A successful parse has one pair per record line, in order. The vertices are the distinct first endpoints followed by 30, and the palette is `1 .. 30` |
| FullIns.EndpointText | Instances/1-FullIns_3.col.py:18 | The second endpoint of a line ending in a newline is everything after position 4. On a last line without a newline it loses its final character |
| FullIns.BuildModel | Instances/1-FullIns_3.col.py:24-49 | The standard model over the vertex list (30 possibly twice) and 30 columns |
| Ilp.AddRowAssignments | Instances/100_instances_sorted.py:45-46 | C1 has one equality per row, over all columns of that row |
| Ilp.RowTermValues | Instances/100_instances_sorted.py:46 | The terms of a row's equality read exactly that row of x |
| Ilp.SumOneExactlyOne | Instances/100_instances_sorted.py:46 | A 0/1 row sums to 1 iff exactly one entry is 1 |
| Ilp.SumZero | Instances/100_instances_sorted.py:56 | A 0/1 sum is non-negative, and 0 iff every entry is 0 |
| Ilp.ConflictSeparates | Instances/100_instances_sorted.py:53 | A C2 inequality keeps the two rows from both having a 1 in its column, and forces y to 1 when either does |
| Ilp.AddConflicts | Instances/100_instances_sorted.py:49-53 | The C2 loops build the C2 list row by row, in loop order |
| Ilp.ConflictsExactly | Instances/100_instances_sorted.py:49-53 | C2 holds `Conflict(r1, r2, c)` iff r1 and r2 are row positions, c is a column and `(r1, r2)` is in the edge list |
| Ilp.ConflictsDistinct | Instances/100_instances_sorted.py:49-53 | C2 never holds the same inequality twice |
| Ilp.ObjectiveIsSum | Instances/100_instances_sorted.py:56 | The objective's value is the sum of all y |
| Ilp.ModelWithFeasibleIff | Instances/list_colourig_all_inst.py:44-66 | A point is feasible iff it fits the variables, is 0/1, and satisfies C1 and C2 |
| Ilp.BuildStandard | Instances/100_instances_sorted.py:35-56 | Variables, C1 over every row, C2 and the objective, in the script's order; all constraints name declared variables |
| Ilp.StandardFeasibleIff | Instances/100_instances_sorted.py:43-53 | A point is feasible for the standard model iff every row has exactly one 1 and every C2 inequality holds |
| Ilp.OrientationIrrelevant | Instances/100_instances_sorted.py:49-53 | Adding the reverse of every tuple changes no point's feasibility |
| Ilp.ConflictsAgree | Instances/100_instances_sorted.py:49-53 | Edge lists that agree on all pairs of row positions give the same C2 |
| Ilp.OutOfRangeEdgeIgnored | Instances/100_instances_sorted.py:49-53 | A tuple with an endpoint outside the row positions leaves the model unchanged |
| Ilp.EdgelessObjectiveZero | Instances/100_instances_sorted.py:43-56 | Without edges, putting every row in column 0 and no y at all is feasible with objective 0 |
| Extraction.ColorsUsed | Instances/100_instances_sorted.py:69-72 | The `colors_used` loop returns the labels whose y is 1, in palette order |
| Extraction.UsedColorsMembers | Instances/100_instances_sorted.py:69-72 | A label is reported as used iff some column with that label has y = 1 |
| Extraction.UsedColorsOrdered | Instances/100_instances_sorted.py:69-72 | For an increasing palette the used colours are listed in increasing order |
| Extraction.UsedColorsCountIsObjective | Instances/100_instances_sorted.py:86 | `len(colors_used)` equals the objective value for every 0/1 y |
| Extraction.VertexColor | Instances/100_instances_sorted.py:77-83 | The nested loops build the row-major grouping of vertices by colour |
| Extraction.VertexColorMeaning | Instances/100_instances_sorted.py:77-83 | For a palette without repeats, each colour's list holds the vertices of the rows marked in its column, in row order. A label is a key iff some row marks its column. Keys come in the order the row-major scan first meets them, and non-palette labels are absent |
| Extraction.VertexColorMembers | Instances/100_instances_sorted.py:77-83 | u is listed under a colour iff some row with vertex u has a 1 in that colour's column |
| Extraction.AssignedRowReported | Instances/100_instances_sorted.py:77-83 | A row with exactly one 1 has its vertex reported under that column's colour |
| Extraction.ReportedOnce | Instances/100_instances_sorted.py:77-83 | With distinct vertices and exactly one 1 per row, a vertex is reported under one colour only |
| Extraction.Extract | Instances/100_instances_sorted.py:64-91 | A report exists iff the status is optimal. It then holds the used colours, their count and the grouping |

## Left out

- The solver: Gurobi is an external library. A solve is represented by its
  status (optimal or not) and the 0/1 values of x and y. Values read back as
  floats (`.X == 1`) are treated as integers.
- File and console I/O: the manifest loop over file names, `open`, `print`
  and the formatting of the report files. Every parser takes the file's
  lines.
- Time and optimality gap: `time.time()`, `ObjVal`, `ObjBound`, the gap
  arithmetic and the time limit parameter are solver or clock values with
  no logic of their own.
- Exception handling: every failure modelled (ValueError, IndexError) ends
  the whole run, since the scripts catch only GurobiError and
  AttributeError, which come from the solver. The solver-side
  AttributeErrors are not modelled:
  - The FullIns script reads `X` and `ObjVal` after its status test
    (`Instances/1-FullIns_3.col.py:92-94`), so a solve without a solution
    raises there.
  - The list script reads `vc.ObjVal` and `vc.ObjBound`
    (`Instances/list_colourig_all_inst.py:78-79`) before its status test
    (line 84). Its `except AttributeError` (line 118) is outside the loop
    over files. So any solve without an incumbent, an infeasible list
    instance for one, ends the whole batch rather than writing a
    "No optimal solution" file. That branch (lines 111-114) is reached
    only when an incumbent exists but the status is not optimal.
  - `Extraction.Extract` models the status test alone.
- `FullIns.RecordOfEdgeText` requires `0 <= a <= 99`, because the script reads
  the first endpoint from the two fixed columns 2 and 3. A wider first
  endpoint spills into `line[4:-1]`.
- Variable names (`"X" + str(v) + " " + str(c)`) are solver labels with no
  effect on the model and are not modelled.
- `int()` is modelled on the ASCII digits, `_` separators and a sign. Around
  the literal it skips the characters `str.isspace()` accepts, except the
  four separators U+001C to U+001F. `strip()` and `split()` treat those four
  as whitespace, but `int()` rejects them (`SeparatorsNotSkipped`).
  Non-ASCII digits, which `int()` also reads, are not modelled.
- Range, ListColouring.InstanceShape, Dimacs.InstanceShape: Python cannot
  build the vertex and colour lists once the count reaches 2**63, where
  `range` raises OverflowError because its length does not fit a C
  `ssize_t`. Far smaller counts already raise MemoryError. The model builds
  lists of any length.
- ParseInt, ParseShow: the limit of 4300 digits that Python 3.11 and later
  put on `int()` of a string and on `str()` of an int is not modelled. The
  model reads and writes integers of any length; `ParseShow` holds for
  every integer.
- The two other files in the directory (`60 list coloring.py`,
  `code for list coloring.py`) are not part of this model.
