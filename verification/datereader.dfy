/** `readDate`: the forward-only scan of the decoded `a2settings.ini` for the
    last-update token. The decoded file is the sequence of lines the scanner
    delivers, followed by the error (if any) that stopped it. */
module DateReader {
  import opened Wrappers
  import opened Text

  /** What `utfutil.NewScanner` delivers: the lines `Scan` returns, in order,
      and the value `Err` reports once `Scan` has returned false (`None` at a
      clean end of file). */
  datatype ScanInput = ScanInput(lines: seq<string>, err: Option<Error>)

  /** The `(string, error)` pair `readDate` returns. */
  datatype ReadResult = ReadResult(token: string, err: Option<Error>)

  const Marker: string := "LastUpdated"
  const DateKey: string := "Date="

  /** The line that opens the search: any line containing `LastUpdated`. */
  predicate IsMarker(line: string) {
    Contains(line, Marker)
  }

  /** The line that ends the search: any line starting with `Date=`. */
  predicate IsDateLine(line: string) {
    HasPrefix(line, DateKey)
  }

  /** `strings.Split(line, "=")[1]` of a `Date=` line: the text between the
      first and the second `=`. The prefix guarantees a second piece. */
  function DateToken(line: string): (t: string)
    requires IsDateLine(line)
    ensures '=' !in t
    ensures t == UpTo(line[|DateKey|..], '=')
  {
    assert line[4] == '=' && '=' !in line[..4];
    SplitSecondPiece(line, '=');
    Split(line, '=')[1]
  }

  /** Index of the first line at or after `from` that satisfies `p`. */
  function FirstFrom(lines: seq<string>, from: nat, p: string -> bool): (r: Option<nat>)
    ensures r.Some? ==> from <= r.value < |lines| && p(lines[r.value])
    ensures r.Some? ==> forall k :: from <= k < r.value ==> !p(lines[k])
    ensures r.None? ==> forall k :: from <= k < |lines| ==> !p(lines[k])
    decreases |lines| - from
  {
    if from >= |lines| then None
    else if p(lines[from]) then Some(from)
    else FirstFrom(lines, from + 1, p)
  }

  /** Index of the line `readDate` takes its token from: the first line
      starting with `Date=` strictly after the first line containing
      `LastUpdated`. */
  function DateLineIndex(lines: seq<string>): (r: Option<nat>)
    ensures r.Some? ==> Selected(lines, r.value)
    ensures r.None? ==> forall j :: !Selected(lines, j)
  {
    match FirstFrom(lines, 0, IsMarker)
    case None => None
    case Some(i) =>
      assert FirstMarkerAt(lines, i);
      FirstMarkerUnique(lines, i);
      match FirstFrom(lines, i + 1, IsDateLine)
      case None => None
      case Some(j) => Some(j)
  }

  /** `readDate`: the token of the selected line with no error, or else the
      empty token with the scanner's error. */
  function ReadDate(input: ScanInput): (r: ReadResult)
    ensures forall j :: Selected(input.lines, j) ==> r == ReadResult(DateToken(input.lines[j]), None)
    ensures (forall j :: !Selected(input.lines, j)) ==> r == ReadResult("", input.err)
  {
    match DateLineIndex(input.lines)
    case None => ReadResult("", input.err)
    case Some(j) =>
      SelectedUnique(input.lines, j);
      ReadResult(DateToken(input.lines[j]), None)
  }

  /** `i` is the first line that contains `LastUpdated`. */
  ghost predicate FirstMarkerAt(lines: seq<string>, i: int) {
    0 <= i < |lines| && IsMarker(lines[i]) && forall k :: 0 <= k < i ==> !IsMarker(lines[k])
  }

  /** `j` is the line whose token `readDate` returns: it starts with `Date=`,
      it comes strictly after the first marker line, and no line in between
      starts with `Date=`. Lines in between may be anything else, including
      further markers and `[Section]` headers. */
  ghost predicate Selected(lines: seq<string>, j: int) {
    0 <= j < |lines| && IsDateLine(lines[j]) &&
    exists i :: FirstMarkerAt(lines, i) && i < j && forall k :: i < k < j ==> !IsDateLine(lines[k])
  }

  /** There is only one first marker line. */
  lemma FirstMarkerUnique(lines: seq<string>, i: int)
    requires FirstMarkerAt(lines, i)
    ensures forall i' :: FirstMarkerAt(lines, i') ==> i' == i
  {
  }

  /** There is only one selected `Date=` line. */
  lemma SelectedUnique(lines: seq<string>, j: int)
    requires Selected(lines, j)
    ensures forall j' :: Selected(lines, j') ==> j' == j
  {
    var i :| FirstMarkerAt(lines, i) && i < j && forall k :: i < k < j ==> !IsDateLine(lines[k]);
    FirstMarkerUnique(lines, i);
  }

  /** The Go loops themselves: the outer loop calls `Scan` before testing
      its flag `r`, the inner loop tests its flag `i` before calling `Scan`,
      and each `Scan` consumes one line. The method returns what the
      functional definition does. */
  method ReadDateLoop(input: ScanInput) returns (token: string, err: Option<Error>)
    ensures ReadResult(token, err) == ReadDate(input)
  {
    var lines := input.lines;
    var pos := 0;                 // lines consumed by Scan so far
    var r := false;
    while true
      invariant 0 <= pos <= |lines|
      invariant !r ==> forall k :: 0 <= k < pos ==> !IsMarker(lines[k])
      invariant r ==> pos == |lines| && forall j :: !Selected(lines, j)
      decreases |lines| - pos, if r then 0 else 1
    {
      // scanner.Scan() && !r
      if pos == |lines| { break; }
      pos := pos + 1;
      if r { break; }
      var line := lines[pos - 1];
      if Contains(line, Marker) {
        ghost var m := pos - 1;
        assert FirstMarkerAt(lines, m);
        r := true;
        var i := false;
        while !i && pos < |lines|
          invariant m < pos <= |lines|
          invariant !i
          invariant forall k :: m < k < pos ==> !IsDateLine(lines[k])
        {
          // scanner.Scan()
          pos := pos + 1;
          line := lines[pos - 1];
          if HasPrefix(line, DateKey) {
            i := true;
            assert Selected(lines, pos - 1);
            return DateToken(line), None;
          }
        }
        FirstMarkerUnique(lines, m);
      }
    }
    return "", input.err;
  }

  /** Searching `prefix + rest` from inside `rest` finds what searching
      `rest` finds, shifted by `|prefix|`. */
  lemma {:induction false} FirstFromShift(prefix: seq<string>, rest: seq<string>, from: nat, p: string -> bool)
    ensures FirstFrom(prefix + rest, |prefix| + from, p) ==
            (match FirstFrom(rest, from, p) case None => None case Some(k) => Some(k + |prefix|))
    decreases |rest| - from
  {
    var lines := prefix + rest;
    if from < |rest| {
      assert lines[|prefix| + from] == rest[from];
      if !p(rest[from]) {
        FirstFromShift(prefix, rest, from + 1, p);
      }
    }
  }

  /** A search may skip lines that do not satisfy its predicate. */
  lemma {:induction false} FirstFromSkip(lines: seq<string>, from: nat, to: nat, p: string -> bool)
    requires from <= to <= |lines|
    requires forall k :: from <= k < to ==> !p(lines[k])
    ensures FirstFrom(lines, from, p) == FirstFrom(lines, to, p)
    decreases |lines| - from
  {
    if from < to {
      FirstFromSkip(lines, from + 1, to, p);
    }
  }

  /** Lines before the first marker line are ignored: prepending lines that
      contain no `LastUpdated` does not change the result. */
  lemma ReadDateSkipsLeadingLines(prefix: seq<string>, rest: seq<string>, err: Option<Error>)
    requires forall k :: 0 <= k < |prefix| ==> !IsMarker(prefix[k])
    ensures ReadDate(ScanInput(prefix + rest, err)) == ReadDate(ScanInput(rest, err))
  {
    var lines := prefix + rest;
    DateLineIndexSkips(prefix, rest);
    match DateLineIndex(rest)
    case None =>
    case Some(j) =>
      assert lines[j + |prefix|] == rest[j];
  }

  /** Lines without the marker in front of the file shift the selected
      line by their number and change nothing else. */
  lemma DateLineIndexSkips(prefix: seq<string>, rest: seq<string>)
    requires forall k :: 0 <= k < |prefix| ==> !IsMarker(prefix[k])
    ensures DateLineIndex(prefix + rest) ==
            (match DateLineIndex(rest) case None => None case Some(j) => Some(j + |prefix|))
  {
    var lines := prefix + rest;
    assert forall k :: 0 <= k < |prefix| ==> lines[k] == prefix[k];
    FirstFromSkip(lines, 0, |prefix|, IsMarker);
    FirstFromShift(prefix, rest, 0, IsMarker);
    match FirstFrom(rest, 0, IsMarker)
    case None =>
    case Some(i) =>
      FirstFromShift(prefix, rest, i + 1, IsDateLine);
  }

  /** The scan stops at the selected line: whatever follows it, and however
      the scanner ends, the result is the same. */
  lemma ReadDateIgnoresLaterLines(lines: seq<string>, more: seq<string>, err: Option<Error>, err': Option<Error>)
    requires exists j :: Selected(lines, j)
    ensures ReadDate(ScanInput(lines + more, err')) == ReadDate(ScanInput(lines, err))
  {
    var j :| Selected(lines, j);
    var all := lines + more;
    var i :| FirstMarkerAt(lines, i) && i < j && forall k :: i < k < j ==> !IsDateLine(lines[k]);
    assert FirstMarkerAt(all, i) by {
      assert forall k :: 0 <= k <= i ==> all[k] == lines[k];
    }
    assert forall k :: i < k <= j ==> all[k] == lines[k];
    assert Selected(all, j);
  }

  /** A missing section and a missing key give the same result: the empty
      token and whatever error stopped the scanner (none at a clean end of
      file). */
  lemma ReadDateNotFound(input: ScanInput)
    requires (forall k :: 0 <= k < |input.lines| ==> !IsMarker(input.lines[k])) ||
             (exists i :: FirstMarkerAt(input.lines, i) &&
                forall k :: i < k < |input.lines| ==> !IsDateLine(input.lines[k]))
    ensures ReadDate(input) == ReadResult("", input.err)
  {
    if exists i :: FirstMarkerAt(input.lines, i) {
      var i :| FirstMarkerAt(input.lines, i);
      FirstMarkerUnique(input.lines, i);
    }
  }

  /** The marker line itself is never tested for `Date=`, a `[Section]`
      header after the marker does not end the search, and the token stops
      at the second `=`. */
  lemma ReadDateExample1()
    ensures ReadDate(ScanInput(["Date=1 LastUpdated", "[Other]", "Date=2=x"], None)) == ReadResult("2", None)
  {
    var lines := ["Date=1 LastUpdated", "[Other]", "Date=2=x"];
    assert OccursAt(lines[0], Marker, 7);
    assert FirstFrom(lines, 0, IsMarker) == Some(0);
    assert lines[1][0] != DateKey[0];
    assert !IsDateLine(lines[1]);
    assert lines[2][..5] == DateKey;
    assert FirstFrom(lines, 1, IsDateLine) == Some(2);
    assert lines[2][5..] == "2=x";
    assert "2=x"[1..] == "=x";
    assert IndexOf("2=x", '=') == 1;
    assert UpTo("2=x", '=') == "2";
  }

  /** A `Date=` line before the marker is ignored, and so is a marker with
      no `Date=` line after it. */
  lemma ReadDateExample2()
    ensures ReadDate(ScanInput(["Date=1", "[LastUpdated]"], None)) == ReadResult("", None)
  {
  }

  /** An empty `Date=` value is still a selected line: the token is empty
      and the scanner's later error is never looked at. */
  lemma ReadDateExample3()
    ensures ReadDate(ScanInput(["[LastUpdated]", "Date="], Some("read error"))) == ReadResult("", None)
  {
    var lines := ["[LastUpdated]", "Date="];
    assert OccursAt(lines[0], Marker, 1);
    assert FirstFrom(lines, 0, IsMarker) == Some(0);
    assert IsDateLine(lines[1]);
    assert FirstFrom(lines, 1, IsDateLine) == Some(1);
    assert lines[1][5..] == "";
  }
}
