/** The pieces of Python's built-in string, integer and list behaviour that the
    three scripts depend on: str.startswith, str.strip, str.split (with and
    without a separator), int() on a string, str() on an int, list indexing,
    slicing and range(). */
module PyBuiltins {
  import opened Common
  import opened LineScan

  /** str.isspace() of a one-character string. */
  predicate IsSpace(ch: char) {
    var n := ch as int;
    || 9 <= n <= 13 || 28 <= n <= 32 || n == 133 || n == 160 || n == 5760
    || 8192 <= n <= 8202 || n == 8232 || n == 8233 || n == 8239 || n == 8287 || n == 12288
  }

  predicate IsDigit(ch: char) {
    '0' <= ch <= '9'
  }

  /** s.startswith(c) for a one-character prefix. */
  predicate StartsWith(s: string, c: char) {
    |s| > 0 && s[0] == c
  }

  /** s.lstrip(): the suffix left after dropping leading whitespace. */
  function LStrip(s: string): (r: string)
    ensures |r| <= |s| && r == s[|s| - |r|..]
    ensures forall i :: 0 <= i < |s| - |r| ==> IsSpace(s[i])
    ensures |r| > 0 ==> !IsSpace(r[0])
  {
    if |s| > 0 && IsSpace(s[0]) then
      var r := LStrip(s[1..]);
      assert s[1..][|s| - 1 - |r|..] == s[|s| - |r|..];
      r
    else s
  }

  /** s.rstrip(): the prefix left after dropping trailing whitespace. */
  function RStrip(s: string): (r: string)
    ensures |r| <= |s| && r == s[..|r|]
    ensures forall i :: |r| <= i < |s| ==> IsSpace(s[i])
    ensures |r| > 0 ==> !IsSpace(r[|r| - 1])
  {
    if |s| > 0 && IsSpace(s[|s| - 1]) then RStrip(s[..|s| - 1]) else s
  }

  /** s.strip() */
  function Strip(s: string): string {
    RStrip(LStrip(s))
  }

  /** s.split(sep) for a one-character separator: the pieces between
      separators, empty ones included; there is always at least one. */
  function Split(s: string, sep: char): (r: seq<string>)
    ensures |r| >= 1
    ensures forall i :: 0 <= i < |r| ==> sep !in r[i]
    ensures (|r| == 1) == (sep !in s)
    // the first piece is everything before the first separator
    ensures |r[0]| <= |s| && r[0] == s[..|r[0]|]
    ensures |r[0]| < |s| ==> s[|r[0]|] == sep
  {
    if |s| == 0 then [""]
    else
      var rest := Split(s[1..], sep);
      if s[0] == sep then [""] + rest
      else [[s[0]] + rest[0]] + rest[1..]
  }

  /** sep.join(pieces) */
  function Join(pieces: seq<string>, sep: char): string {
    if |pieces| == 0 then ""
    else if |pieces| == 1 then pieces[0]
    else pieces[0] + [sep] + Join(pieces[1..], sep)
  }

  /** Joining the pieces of a split with the same separator gives back the string. */
  lemma {:induction false} SplitJoin(s: string, sep: char)
    ensures Join(Split(s, sep), sep) == s
  {
    if |s| > 0 {
      var rest := Split(s[1..], sep);
      SplitJoin(s[1..], sep);
      if s[0] == sep {
        assert Split(s, sep) == [""] + rest;
      } else {
        assert Split(s, sep) == [[s[0]] + rest[0]] + rest[1..];
        JoinExtendFirst(s[0], rest, sep);
      }
    }
  }

  /** Putting a character in front of the first piece puts it in front of the join. */
  lemma JoinExtendFirst(c: char, pieces: seq<string>, sep: char)
    requires |pieces| >= 1
    ensures Join([[c] + pieces[0]] + pieces[1..], sep) == [c] + Join(pieces, sep)
  {
    var joined := [[c] + pieces[0]] + pieces[1..];
    if |pieces| > 1 {
      assert joined[1..] == pieces[1..];
    }
  }

  /** The longest prefix of s free of whitespace. */
  function Token(s: string): (t: string)
    ensures |t| <= |s| && t == s[..|t|]
    ensures forall i :: 0 <= i < |t| ==> !IsSpace(t[i])
    ensures |t| < |s| ==> IsSpace(s[|t|])
  {
    if |s| == 0 || IsSpace(s[0]) then "" else [s[0]] + Token(s[1..])
  }

  /** s.split() with no argument: the maximal runs of non-whitespace. */
  function SplitWs(s: string): (r: seq<string>)
    ensures forall i :: 0 <= i < |r| ==> |r[i]| > 0
    ensures forall i, j :: 0 <= i < |r| && 0 <= j < |r[i]| ==> !IsSpace(r[i][j])
    ensures r == [] <==> forall i :: 0 <= i < |s| ==> IsSpace(s[i])
    decreases |s|
  {
    if |s| == 0 then []
    else if IsSpace(s[0]) then SplitWs(s[1..])
    else
      var t := Token(s);
      [t] + SplitWs(s[|t|..])
  }

  /** The characters of s that are not whitespace, in order. */
  function NonSpace(s: string): string {
    if s == [] then [] else (if IsSpace(s[0]) then [] else [s[0]]) + NonSpace(s[1..])
  }

  /** The words one after another. */
  function Concat(words: seq<string>): string {
    if words == [] then [] else words[0] + Concat(words[1..])
  }

  lemma {:induction false} NonSpaceOfWord(w: string, rest: string)
    requires NoSpace(w)
    ensures NonSpace(w + rest) == w + NonSpace(rest)
  {
    if w != [] {
      assert (w + rest)[1..] == w[1..] + rest;
      NonSpaceOfWord(w[1..], rest);
      assert (w + rest)[0] == w[0] && !IsSpace(w[0]);
      assert NonSpace(w + rest) == [w[0]] + NonSpace(w[1..] + rest);
      AppendAssoc([w[0]], w[1..], NonSpace(rest));
      assert w == [w[0]] + w[1..];
    } else {
      assert w + rest == rest;
    }
  }

  /** split() loses exactly the whitespace: its words, put together, are
      the other characters of s in their order. */
  lemma {:induction false} SplitWsChars(s: string)
    ensures Concat(SplitWs(s)) == NonSpace(s)
    decreases |s|
  {
    if s != [] {
      if IsSpace(s[0]) {
        SplitWsChars(s[1..]);
      } else {
        var t := Token(s);
        var rest := s[|t|..];
        SplitWsChars(rest);
        assert s == t + rest;
        NonSpaceOfWord(t, rest);
        assert Concat(SplitWs(s)) == t + Concat(SplitWs(rest));
      }
    }
  }

  predicate NoSpace(w: string) {
    forall i :: 0 <= i < |w| ==> !IsSpace(w[i])
  }

  /** A word followed by whitespace or by nothing is the token it starts. */
  lemma {:induction false} TokenOfWord(w: string, rest: string)
    requires NoSpace(w) && (rest == [] || IsSpace(rest[0]))
    ensures Token(w + rest) == w
  {
    if w != [] {
      assert (w + rest)[1..] == w[1..] + rest;
      TokenOfWord(w[1..], rest);
    }
  }

  /** A non-empty word followed by whitespace or by nothing is the first
      word split() returns, and the split goes on with what follows. */
  lemma SplitWsWord(w: string, rest: string)
    requires |w| > 0 && NoSpace(w) && (rest == [] || IsSpace(rest[0]))
    ensures SplitWs(w + rest) == [w] + SplitWs(rest)
  {
    TokenOfWord(w, rest);
    assert (w + rest)[|w|..] == rest;
  }

  /** Leading whitespace separates nothing. */
  lemma SplitWsSpace(ch: char, rest: string)
    requires IsSpace(ch)
    ensures SplitWs([ch] + rest) == SplitWs(rest)
  {
    assert ([ch] + rest)[1..] == rest;
  }

  /** Only decimal digits, with underscores allowed between them. */
  predicate DigitsOrUnderscores(b: string) {
    forall i :: 0 <= i < |b| ==> IsDigit(b[i]) || b[i] == '_'
  }

  /** The unsigned part of a literal int() accepts: digits, where single
      underscores may separate two digits. */
  predicate ValidDigits(b: string) {
    && |b| > 0
    && DigitsOrUnderscores(b)
    && IsDigit(b[0]) && IsDigit(b[|b| - 1])
    && forall i :: 0 <= i < |b| - 1 ==> IsDigit(b[i]) || IsDigit(b[i + 1])
  }

  /** The value of a decimal digit string, underscores ignored. */
  function DigitsValue(b: string): nat
    requires DigitsOrUnderscores(b)
  {
    if |b| == 0 then 0
    else
      var init := b[..|b| - 1];
      if b[|b| - 1] == '_' then DigitsValue(init)
      else 10 * DigitsValue(init) + (b[|b| - 1] as int - '0' as int)
  }

  /** The whitespace int() skips around a literal: that of str.isspace()
      but for the four separators U+001C .. U+001F. int() passes ASCII text
      through unchanged and then skips only tab, the line breaks, form feed,
      vertical tab and space; other whitespace is first turned into a space. */
  predicate IntSpace(ch: char) {
    IsSpace(ch) && !(28 <= ch as int <= 31)
  }

  /** The prefix left after dropping the trailing whitespace int() skips. */
  function IntRStrip(s: string): (r: string)
    ensures |r| <= |s| && r == s[..|r|]
    ensures forall i :: |r| <= i < |s| ==> IntSpace(s[i])
    ensures |r| > 0 ==> !IntSpace(r[|r| - 1])
  {
    if |s| > 0 && IntSpace(s[|s| - 1]) then IntRStrip(s[..|s| - 1]) else s
  }

  /** int(s) for a string s: surrounding whitespace, an optional sign, then
      decimal digits; None stands for the ValueError int() raises. Leading
      whitespace is skipped one character at a time, trailing whitespace is
      stripped, and what remains is read. */
  function ParseInt(s: string): Option<int>
    decreases |s|
  {
    if |s| > 0 && IntSpace(s[0]) then ParseInt(s[1..])
    else ParseStripped(IntRStrip(s))
  }

  /** What int() reads once the whitespace around t is gone: an optional
      sign, then decimal digits. */
  function ParseStripped(t: string): Option<int> {
    if |t| > 0 && (t[0] == '+' || t[0] == '-') then
      var b := t[1..];
      if ValidDigits(b) then
        var magnitude: int := DigitsValue(b);
        Some(if t[0] == '-' then -magnitude else magnitude)
      else None
    else if ValidDigits(t) then Some(DigitsValue(t))
    else None
  }

  function Digit(d: nat): (c: char)
    requires d < 10
    ensures IsDigit(c) && c as int - '0' as int == d
  {
    ('0' as int + d) as char
  }

  /** str(n) for a natural number */
  function ShowNat(n: nat): (r: string)
    ensures |r| > 0 && forall i :: 0 <= i < |r| ==> IsDigit(r[i])
  {
    if n < 10 then [Digit(n)] else ShowNat(n / 10) + [Digit(n % 10)]
  }

  /** str(n) */
  function Show(n: int): string {
    if n < 0 then "-" + ShowNat(-n) else ShowNat(n)
  }

  lemma {:induction false} ShowNatValue(n: nat)
    ensures DigitsOrUnderscores(ShowNat(n)) && DigitsValue(ShowNat(n)) == n
  {
    var s := ShowNat(n);
    if n >= 10 {
      ShowNatValue(n / 10);
      assert s[..|s| - 1] == ShowNat(n / 10);
    }
  }

  lemma DigitNotSpace(ch: char)
    requires IsDigit(ch)
    ensures !IsSpace(ch)
  {
  }

  lemma AllDigitsValid(b: string)
    requires |b| > 0 && forall i :: 0 <= i < |b| ==> IsDigit(b[i])
    ensures ValidDigits(b)
  {
  }

  lemma IntRStripKeeps(s: string)
    requires |s| > 0 && !IntSpace(s[|s| - 1])
    ensures IntRStrip(s) == s
  {
  }

  /** int() ignores the whitespace it skips when it comes in front. */
  lemma ParseLeadingSpace(ch: char, s: string)
    requires IntSpace(ch)
    ensures ParseInt([ch] + s) == ParseInt(s)
  {
    assert ([ch] + s)[1..] == s;
  }

  /** int() ignores a space behind, whatever comes before it. */
  lemma {:induction false} ParseTrailingSpace(s: string)
    ensures ParseInt(s + [' ']) == ParseInt(s)
    decreases |s|
  {
    var t := s + [' '];
    if |s| == 0 {
      assert t[1..] == s;
    } else if IntSpace(s[0]) {
      assert t[1..] == s[1..] + [' '];
      ParseTrailingSpace(s[1..]);
    } else {
      assert t[..|t| - 1] == s;
      assert IntRStrip(t) == IntRStrip(s);
    }
  }

  /** The file and unit separators U+001C .. U+001F are whitespace to
      strip() and split() but not to int(): next to a digit they make it
      raise. */
  lemma SeparatorsNotSkipped(d: char)
    requires IsDigit(d)
    ensures ParseInt([28 as char, d]) == None
    ensures ParseInt([d, 31 as char]) == None
  {
    IntRStripKeeps([28 as char, d]);
    IntRStripKeeps([d, 31 as char]);
    assert !ValidDigits([28 as char, d]);
    assert !ValidDigits([d, 31 as char]);
  }

  /** int() of bare digits. */
  lemma ParseUnsigned(s: string)
    requires ValidDigits(s)
    ensures ParseInt(s) == Some(DigitsValue(s) as int)
  {
    DigitNotSpace(s[0]);
    DigitNotSpace(s[|s| - 1]);
    IntRStripKeeps(s);
    assert s[0] != '+' && s[0] != '-';
  }

  /** int() of a minus sign followed by digits. */
  lemma ParseNegative(s: string, digits: string)
    requires ValidDigits(digits) && s == "-" + digits
    ensures ParseInt(s) == Some(-(DigitsValue(digits) as int))
  {
    DigitNotSpace(s[|s| - 1]);
    IntRStripKeeps(s);
    assert s[0] == '-' && s[1..] == digits;
  }

  /** str() writes no whitespace. */
  lemma ShowNoSpace(n: int)
    ensures |Show(n)| > 0 && NoSpace(Show(n))
  {
    var digits := ShowNat(if n < 0 then -n else n);
    forall i | 0 <= i < |digits|
      ensures !IsSpace(digits[i])
    {
      DigitNotSpace(digits[i]);
    }
    if n < 0 {
      assert Show(n)[1..] == digits;
    }
  }

  /** int() reads back what str() writes. */
  lemma ParseShow(n: int)
    ensures ParseInt(Show(n)) == Some(n)
  {
    var m: nat := if n < 0 then -n else n;
    ShowNatValue(m);
    AllDigitsValid(ShowNat(m));
    if n < 0 {
      ParseNegative(Show(n), ShowNat(m));
    } else {
      ParseUnsigned(Show(n));
    }
  }

  /** int(text) as a conversion that raises: the ValueError names the text. */
  function IntOf(text: string): (r: Result<int, Failure>)
    ensures r.Ok? <==> ParseInt(text).Some?
    ensures r.Ok? ==> ParseInt(text) == Some(r.value)
    ensures r.Err? ==> r.error == ValueError(text)
  {
    var n := ParseInt(text);
    if n.None? then Err(ValueError(text)) else Ok(n.value)
  }

  /** list(map(int, texts)), raising at the first text int() rejects. */
  function MapInt(texts: seq<string>): Result<seq<int>, Failure> {
    Collect(texts, Every, IntOf)
  }

  /** The conversion succeeds exactly when int() accepts every text, and
      then holds one integer per text, each what int() reads from it; a
      failure is the ValueError of the first text int() rejects. */
  lemma MapIntMeaning(texts: seq<string>)
    ensures MapInt(texts).Ok? <==> forall i :: 0 <= i < |texts| ==> ParseInt(texts[i]).Some?
    ensures MapInt(texts).Ok? ==>
      && |MapInt(texts).value| == |texts|
      && forall i :: 0 <= i < |texts| ==> ParseInt(texts[i]) == Some(MapInt(texts).value[i])
    ensures MapInt(texts).Err? ==>
      exists i ::
        && 0 <= i < |texts| && ParseInt(texts[i]).None?
        && MapInt(texts).error == ValueError(texts[i])
        && forall j :: 0 <= j < i ==> ParseInt(texts[j]).Some?
  {
    SelectedEvery(texts);
    CollectOk(texts, Every, IntOf);
    if MapInt(texts).Err? {
      CollectErr(texts, Every, IntOf);
    }
  }

  /** `int("")` raises, so converting the single empty piece fails. */
  lemma MapIntOfEmpty()
    ensures MapInt([""]) == Err(ValueError(""))
  {
    assert IntOf("") == Err(ValueError(""));
    assert [""][..0] == [];
  }

  /** Texts that int() reads as the given values convert to exactly those values. */
  lemma MapIntOfParsed(texts: seq<string>, values: seq<int>)
    requires |texts| == |values| && forall i :: 0 <= i < |texts| ==> ParseInt(texts[i]) == Some(values[i])
    ensures MapInt(texts) == Ok(values)
  {
    MapIntMeaning(texts);
    assert MapInt(texts).value == values;
  }

  /** The position xs[i] reads in a list of length n; None is an IndexError.
      Negative indices count from the end. */
  function PyIndex(i: int, n: nat): (r: Option<nat>)
    ensures r.Some? <==> -(n as int) <= i < n
    ensures r.Some? ==> r.value < n && (if i >= 0 then r.value == i else r.value == i + n)
  {
    if 0 <= i < n then Some(i)
    else if -(n as int) <= i < 0 then Some(i + n)
    else None
  }

  /** How a slice bound is normalised against a length n. */
  function SliceBound(i: int, n: nat): (r: nat)
    ensures r <= n
  {
    if i < 0 then (if i + n < 0 then 0 else i + n)
    else if i > n then n
    else i
  }

  /** s[lo:hi] */
  function Slice(s: string, lo: int, hi: int): string {
    var a := SliceBound(lo, |s|);
    var b := SliceBound(hi, |s|);
    if a < b then s[a..b] else ""
  }

  /** list(range(lo, hi)) */
  function Range(lo: int, hi: int): (r: seq<int>)
    ensures |r| == if lo < hi then hi - lo else 0
    ensures forall i :: 0 <= i < |r| ==> r[i] == lo + i
  {
    if lo < hi then seq(hi - lo, i => lo + i) else []
  }
}
