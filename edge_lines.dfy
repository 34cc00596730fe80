/** The `e` line reader shared by the list-colouring script and the DIMACS
    script:

      for line in file:
          if line.startswith('e'):
              edges.append(tuple(map(int, line.split()[1:])))
*/
module EdgeLines {
  import opened Common
  import opened PyBuiltins
  import opened LineScan

  predicate IsEdgeLine(line: string) {
    StartsWith(line, 'e')
  }

  /** The whitespace-separated words after the first: `line.split()[1:]`. */
  function AfterMarker(line: string): (r: seq<string>)
    ensures |r| == if |SplitWs(line)| == 0 then 0 else |SplitWs(line)| - 1
    ensures forall i :: 0 <= i < |r| ==> r[i] == SplitWs(line)[i + 1]
  {
    var words := SplitWs(line);
    if |words| == 0 then [] else words[1..]
  }

  /** `tuple(map(int, line.split()[1:]))`: every word after the marker as an
      integer, or the ValueError of the first word int() rejects. */
  function EdgeTuple(line: string): Result<seq<int>, Failure> {
    MapInt(AfterMarker(line))
  }

  /** The edges the loop collects, or the failure it stops at. */
  function EdgesOf(lines: seq<string>): Result<seq<seq<int>>, Failure> {
    Collect(lines, IsEdgeLine, EdgeTuple)
  }

  /** The reading loop. It succeeds exactly when every `e` line converts,
      and then yields one tuple per `e` line, in file order, holding the
      integers of that line's words after the marker. */
  method ReadEdges(lines: seq<string>) returns (r: Result<seq<seq<int>>, Failure>)
    ensures r == EdgesOf(lines)
    ensures r.Ok? <==> forall i :: 0 <= i < |lines| && IsEdgeLine(lines[i]) ==> EdgeTuple(lines[i]).Ok?
    ensures r.Ok? ==>
      var picked := Selected(lines, IsEdgeLine);
      && |r.value| == |picked|
      && forall j :: 0 <= j < |picked| ==>
           && |r.value[j]| == |AfterMarker(picked[j])|
           && forall t :: 0 <= t < |r.value[j]| ==> ParseInt(AfterMarker(picked[j])[t]) == Some(r.value[j][t])
  {
    r := Scan(lines, IsEdgeLine, EdgeTuple);
    CollectOk(lines, IsEdgeLine, EdgeTuple);
    if r.Ok? {
      var picked := Selected(lines, IsEdgeLine);
      forall j | 0 <= j < |picked|
        ensures |r.value[j]| == |AfterMarker(picked[j])|
        ensures forall t :: 0 <= t < |r.value[j]| ==> ParseInt(AfterMarker(picked[j])[t]) == Some(r.value[j][t])
      {
        MapIntMeaning(AfterMarker(picked[j]));
      }
    }
  }

  /** The edge line for the tuple (a, b), as a DIMACS file writes it. */
  function EdgeText(a: int, b: int): string {
    "e " + Show(a) + " " + Show(b) + "\n"
  }

  /** A word, a space, then more words. */
  lemma WordThenSpace(w: string, rest: string)
    requires |w| > 0 && NoSpace(w)
    ensures SplitWs(w + ([' '] + rest)) == [w] + SplitWs(rest)
  {
    SplitWsWord(w, [' '] + rest);
    SplitWsSpace(' ', rest);
  }

  /** A word ending the line. */
  lemma WordThenNewline(w: string)
    requires |w| > 0 && NoSpace(w)
    ensures SplitWs(w + ['\n']) == [w]
  {
    SplitWsWord(w, ['\n']);
    NewlineNoWords();
    assert [w] + [] == [w];
  }

  lemma NewlineNoWords()
    ensures SplitWs(['\n']) == []
  {
    assert ['\n'][1..] == [];
    assert SplitWs(['\n']) == SplitWs([]);
  }

  /** The words of `e <first> <second>\n`, for two non-empty words. */
  lemma EdgeLineWords(first: string, second: string)
    requires |first| > 0 && NoSpace(first) && |second| > 0 && NoSpace(second)
    ensures SplitWs("e " + first + " " + second + "\n") == ["e", first, second]
  {
    var last := second + ['\n'];
    var rest := first + ([' '] + last);
    EdgeLineShape(first, second);
    assert NoSpace(['e']);
    WordThenSpace(['e'], rest);
    WordThenSpace(first, last);
    WordThenNewline(second);
    assert SplitWs(rest) == [first, second];
  }

  lemma EdgeLineShape(first: string, second: string)
    ensures "e " + first + " " + second + "\n" == ['e'] + ([' '] + (first + ([' '] + (second + ['\n']))))
  {
  }

  /** A line whose words are the marker and two numerals reads as the pair. */
  lemma EdgeLineRead(line: string, first: string, second: string, a: int, b: int)
    requires SplitWs(line) == ["e", first, second]
    requires ParseInt(first) == Some(a) && ParseInt(second) == Some(b)
    ensures EdgeTuple(line) == Ok([a, b])
  {
    assert AfterMarker(line) == [first, second];
    MapIntOfParsed([first, second], [a, b]);
  }

  /** Reading an edge line gives back the two integers written in it. */
  lemma EdgeTextRead(a: int, b: int)
    ensures IsEdgeLine(EdgeText(a, b))
    ensures EdgeTuple(EdgeText(a, b)) == Ok([a, b])
  {
    ShowNoSpace(a);
    ShowNoSpace(b);
    EdgeLineWords(Show(a), Show(b));
    ParseShow(a);
    ParseShow(b);
    EdgeLineRead(EdgeText(a, b), Show(a), Show(b), a, b);
  }
}
