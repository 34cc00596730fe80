/** The scanning loop every parser in the three scripts is built from:

      for line in lines:
          if selected(line):
              out.append(convert(line))   # convert may raise

    The first conversion that raises ends the scan with its failure. */
module LineScan {
  import opened Common

  /** The selected lines, in file order. */
  function Selected(lines: seq<string>, sel: string -> bool): (r: seq<string>)
    ensures |r| <= |lines|
    ensures forall i :: 0 <= i < |r| ==> sel(r[i])
  {
    if lines == [] then []
    else
      var last := lines[|lines| - 1];
      Selected(lines[..|lines| - 1], sel) + (if sel(last) then [last] else [])
  }

  /** The selector of a loop without an `if`: every element is taken. */
  predicate Every(line: string) {
    true
  }

  lemma {:induction false} SelectedEvery(lines: seq<string>)
    ensures Selected(lines, Every) == lines
  {
    if lines != [] {
      SelectedEvery(lines[..|lines| - 1]);
    }
  }

  /** What the loop leaves in `out`, or the failure it raises. */
  function Collect<T>(lines: seq<string>, sel: string -> bool, conv: string -> Result<T, Failure>): Result<seq<T>, Failure> {
    if lines == [] then Ok([])
    else
      var last := lines[|lines| - 1];
      var prev := Collect(lines[..|lines| - 1], sel, conv);
      if prev.Err? then prev
      else if !sel(last) then prev
      else if conv(last).Err? then Err(conv(last).error)
      else Ok(prev.value + [conv(last).value])
  }

  lemma {:induction false} CollectErrSticks<T>(lines: seq<string>, sel: string -> bool, conv: string -> Result<T, Failure>, k: nat)
    requires k <= |lines| && Collect(lines[..k], sel, conv).Err?
    ensures Collect(lines, sel, conv) == Collect(lines[..k], sel, conv)
  {
    if k < |lines| {
      assert lines[..|lines| - 1][..k] == lines[..k];
      CollectErrSticks(lines[..|lines| - 1], sel, conv, k);
    } else {
      assert lines[..k] == lines;
    }
  }

  /** One more line of the scan, when the lines before it all converted. */
  lemma CollectStep<T>(lines: seq<string>, sel: string -> bool, conv: string -> Result<T, Failure>, i: nat, out: seq<T>)
    requires i < |lines| && Collect(lines[..i], sel, conv) == Ok(out)
    ensures !sel(lines[i]) ==> Collect(lines[..i + 1], sel, conv) == Ok(out)
    ensures sel(lines[i]) && conv(lines[i]).Ok? ==> Collect(lines[..i + 1], sel, conv) == Ok(out + [conv(lines[i]).value])
    ensures sel(lines[i]) && conv(lines[i]).Err? ==> Collect(lines[..i + 1], sel, conv) == Err(conv(lines[i]).error)
  {
    assert lines[..i + 1][..i] == lines[..i];
  }

  /** The loop itself; it stops at the first failing conversion. */
  method Scan<T>(lines: seq<string>, sel: string -> bool, conv: string -> Result<T, Failure>) returns (r: Result<seq<T>, Failure>)
    ensures r == Collect(lines, sel, conv)
  {
    var out: seq<T> := [];
    var i := 0;
    while i < |lines|
      invariant 0 <= i <= |lines|
      invariant Collect(lines[..i], sel, conv) == Ok(out)
    {
      assert lines[..i + 1][..i] == lines[..i];
      if sel(lines[i]) {
        var c := conv(lines[i]);
        if c.Err? {
          CollectErrSticks(lines, sel, conv, i + 1);
          return Err(c.error);
        }
        out := out + [c.value];
      }
      i := i + 1;
    }
    assert lines[..i] == lines;
    return Ok(out);
  }

  /** The scan succeeds exactly when every selected line converts, and then
      holds one converted value per selected line, in file order. */
  lemma {:induction false} CollectOk<T>(lines: seq<string>, sel: string -> bool, conv: string -> Result<T, Failure>)
    ensures Collect(lines, sel, conv).Ok? <==> forall i :: 0 <= i < |lines| && sel(lines[i]) ==> conv(lines[i]).Ok?
    ensures Collect(lines, sel, conv).Ok? ==>
      var out, picked := Collect(lines, sel, conv).value, Selected(lines, sel);
      |out| == |picked| && forall j :: 0 <= j < |out| ==> conv(picked[j]) == Ok(out[j])
  {
    if lines != [] {
      var init, last := lines[..|lines| - 1], lines[|lines| - 1];
      CollectOk(init, sel, conv);
      assert forall i :: 0 <= i < |init| ==> lines[i] == init[i];
    }
  }

  /** A failing scan reports the failure of the first selected line that fails. */
  lemma {:induction false} CollectErr<T>(lines: seq<string>, sel: string -> bool, conv: string -> Result<T, Failure>)
    requires Collect(lines, sel, conv).Err?
    ensures exists i ::
              && 0 <= i < |lines| && sel(lines[i])
              && conv(lines[i]) == Err(Collect(lines, sel, conv).error)
              && forall j :: 0 <= j < i && sel(lines[j]) ==> conv(lines[j]).Ok?
  {
    var init, last := lines[..|lines| - 1], lines[|lines| - 1];
    assert forall i :: 0 <= i < |init| ==> lines[i] == init[i];
    if Collect(init, sel, conv).Err? {
      CollectErr(init, sel, conv);
    } else {
      CollectOk(init, sel, conv);
      assert conv(lines[|lines| - 1]) == Err(Collect(lines, sel, conv).error);
    }
  }

  /** The first selected value comes from the first line the selector picks. */
  lemma {:induction false} SelectedFirst(lines: seq<string>, sel: string -> bool)
    ensures |Selected(lines, sel)| > 0 <==> exists i :: 0 <= i < |lines| && sel(lines[i])
    ensures |Selected(lines, sel)| > 0 ==>
      exists i ::
        && 0 <= i < |lines| && sel(lines[i]) && Selected(lines, sel)[0] == lines[i]
        && forall j :: 0 <= j < i ==> !sel(lines[j])
  {
    if lines != [] {
      var init, last := lines[..|lines| - 1], lines[|lines| - 1];
      SelectedFirst(init, sel);
      assert forall i :: 0 <= i < |init| ==> lines[i] == init[i];
      if |Selected(init, sel)| == 0 && sel(last) {
        assert Selected(lines, sel)[0] == lines[|lines| - 1];
      }
    }
  }
}
