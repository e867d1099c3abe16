/**
  Reading the course outline, `SUMMARY.md` (xtask/src/tasks.rs): the window
  between the first `# Rust Fundamentals` and the last `# No-Std Rust`, the
  lines kept from it, their grouping into one chunk per heading, and each
  chunk turned into a `SlidesSection`.  The source panics on malformed input;
  here every panic is an `Err` carrying which check failed.
*/
module Outline {
  import opened Wrappers
  import opened RustStr
  import opened Chunking

  /** Everything before this heading is ignored; it must be present. */
  const InitialHeader: string := "# Rust Fundamentals"
  /** Everything from the last occurrence of this heading on is ignored; it must be present. */
  const LastHeader: string := "# No-Std Rust"

  /** One heading of the outline and the titles of the slide decks under it. */
  datatype SlidesSection = SlidesSection(header: string, deckTitles: seq<string>)

  /** The ways the tool stops: `?` on a missing file, or a panic. */
  datatype Failure =
    | SummaryNotFound          // reading SUMMARY.md failed
    | CheatsheetNotFound       // reading <lang>-cheatsheet.md failed
    | MissingInitialHeader     // panic: INITIAL_HEADER not in the outline
    | MissingLastHeader        // panic: LAST_HEADER not in the outline
    | HeadersOutOfOrder        // panic: slicing text[first..last] with first > last
    | SectionTooShort          // panic: a chunk with fewer than two lines
    | MalformedHeader          // panic: a chunk whose first line lacks "# "
    | NotADeckLine             // panic: a deck line not of the form "* [...](....md)"
    | MissingCloseBracket      // panic: a deck line with no ']'

  /**
    `get_deck_title`: the text between the first `[` and the last `]` of a
    line `* [Title](./file.md)`.
  */
  function DeckTitle(line: string): (r: Result<string, Failure>)
    ensures r.Ok? <==> StartsWith(line, "* [") && EndsWith(line, ".md)") && ']' in line
    ensures r.Err? ==> r.error == if StartsWith(line, "* [") && EndsWith(line, ".md)")
                                  then MissingCloseBracket else NotADeckLine
    ensures r.Ok? ==> 3 + |r.value| < |line| && line[..3 + |r.value|] == "* [" + r.value
    ensures r.Ok? ==> line[3 + |r.value|] == ']' && ']' !in line[4 + |r.value|..]
  {
    if !StartsWith(line, "* [") || !EndsWith(line, ".md)") then Err(NotADeckLine)
    else
      FindChar(line, '[');
      RFindChar(line, ']');
      assert "[" == ['['] && "]" == [']'];
      assert line[0] == '*' && line[1] == ' ' && line[2] == '[' by {
        assert line[..3] == "* [";
      }
      var top := RFind(line, "]");
      var bot := Find(line, "[");
      if top.None? then Err(MissingCloseBracket)
      else
        assert bot.Some? && bot.value == 2;
        var title := line[bot.value + 1..top.value];
        assert line[..3 + |title|] == "* [" + title;
        Ok(title)
  }

  /** Any well-formed deck line gives back exactly its title, brackets inside the title included. */
  lemma DeckTitleOfLink(title: string, file: string)
    requires ']' !in file
    ensures DeckTitle("* [" + title + "](./" + file + ".md)") == Ok(title)
  {
    var line := "* [" + title + "](./" + file + ".md)";
    var n := |title|;
    assert line[..3] == "* [";
    assert line[|line| - 4..] == ".md)";
    assert line[3 + n] == ']';
    assert line[4 + n..] == "(./" + file + ".md)";
    var r := DeckTitle(line);
    assert r.Ok?;
    assert line[..3 + n] == "* [" + title;
    assert r.value == ("* [" + r.value)[3..];
  }

  /**
    The region `focus_regions` looks at, as `(first, last)`: from the first
    occurrence of the initial heading up to, not including, the last
    occurrence of the last heading.
  */
  function Window(text: string): (r: Result<(nat, nat), Failure>)
    ensures r == Err(MissingInitialHeader) <==> !Contains(text, InitialHeader)
    ensures r == Err(MissingLastHeader) <==> Contains(text, InitialHeader) && !Contains(text, LastHeader)
    ensures r == Err(HeadersOutOfOrder) ==>
      forall i, j :: IsAt(text, InitialHeader, i) && IsAt(text, LastHeader, j) ==> j < i
    ensures r.Err? ==> r.error in {MissingInitialHeader, MissingLastHeader, HeadersOutOfOrder}
    ensures r.Ok? ==> r.value.0 <= r.value.1 <= |text|
    ensures r.Ok? ==> IsAt(text, InitialHeader, r.value.0)
                      && forall j :: 0 <= j < r.value.0 ==> !IsAt(text, InitialHeader, j)
    ensures r.Ok? ==> IsAt(text, LastHeader, r.value.1)
                      && forall j :: r.value.1 < j ==> !IsAt(text, LastHeader, j)
  {
    match Find(text, InitialHeader)
    case None => Err(MissingInitialHeader)
    case Some(first) =>
      match RFind(text, LastHeader)
      case None => Err(MissingLastHeader)
      case Some(last) => if first <= last then Ok((first, last)) else Err(HeadersOutOfOrder)
  }

  /** A trimmed line `focus_regions` keeps: non-empty and starting with `*` or `#`. */
  predicate IsOutlineLine(t: string) {
    t != [] && (StartsWith(t, "*") || StartsWith(t, "#"))
  }

  /** The trimmed lines `focus_regions` keeps, in their original order. */
  function OutlineLines(lines: seq<string>): (r: seq<string>)
    ensures |r| <= |lines|
  {
    if lines == [] then []
    else
      var t := Trim(lines[|lines| - 1]);
      OutlineLines(lines[..|lines| - 1]) + (if IsOutlineLine(t) then [t] else [])
  }

  /** Every kept line is trimmed, non-empty and starts with `*` or `#`. */
  lemma {:induction false} OutlineLinesKept(lines: seq<string>)
    ensures forall k :: 0 <= k < |OutlineLines(lines)| ==> IsOutlineLine(OutlineLines(lines)[k]) && IsTrimmed(OutlineLines(lines)[k])
    decreases |lines|
  {
    if lines != [] {
      OutlineLinesKept(lines[..|lines| - 1]);
    }
  }

  /** One more line through the loop: a kept line is one more step of the grouping. */
  lemma GroupStep(lines: seq<string>, i: nat)
    requires i < |lines|
    ensures var t, st := Trim(lines[i]), ScanFrom(Scan([], []), OutlineLines(lines[..i]));
      ScanFrom(Scan([], []), OutlineLines(lines[..i + 1])) == if IsOutlineLine(t) then ChunkStep(st, t) else st
  {
    var t, kept := Trim(lines[i]), OutlineLines(lines[..i]);
    assert lines[..i + 1][..i] == lines[..i];
    if IsOutlineLine(t) {
      assert OutlineLines(lines[..i + 1]) == kept + [t];
      ScanSnoc(Scan([], []), kept, t);
    } else {
      assert OutlineLines(lines[..i + 1]) == kept;
    }
  }

  /** What `focus_regions` returns for the outline text `text`. */
  function FocusedChunks(text: string): Result<seq<seq<string>>, Failure> {
    match Window(text)
    case Err(e) => Err(e)
    case Ok((first, last)) => Ok(Chunks(OutlineLines(Lines(text[first..last]))))
  }

  /** `focus_regions`: the window of the outline, then the grouping loop over its lines. */
  method FocusRegions(text: string) returns (r: Result<seq<seq<string>>, Failure>)
    ensures r == FocusedChunks(text)
  {
    var bounds := Window(text);
    if bounds.Err? {
      return Err(bounds.error);
    }
    var first, last := bounds.value.0, bounds.value.1;
    var result := GroupOutlineLines(Lines(text[first..last]));
    r := Ok(result);
  }

  /** The `for line in text.lines()` loop of `focus_regions`. */
  method GroupOutlineLines(lines: seq<string>) returns (result: seq<seq<string>>)
    ensures result == Chunks(OutlineLines(lines))
  {
    result := [];
    var current: seq<string> := [];
    for i := 0 to |lines|
      invariant Scan(result, current) == ScanFrom(Scan([], []), OutlineLines(lines[..i]))
    {
      var trimmed := Trim(lines[i]);
      GroupStep(lines, i);
      // empty, or starting with neither '*' nor '#'
      if !IsOutlineLine(trimmed) {
        continue;
      }
      // a line starting with "# " closes a non-empty section and opens a fresh one with itself
      if IsHeading(trimmed) && current != [] {
        result := result + [current];
        current := [trimmed];
      } else {
        current := current + [trimmed];
      }
    }
    assert lines[..|lines|] == lines;
    if current != [] {
      result := result + [current];
    }
  }

  /**
    What `focus_regions` returns: a correct chunking of the kept lines (so
    joining the chunks gives them back in order), each line trimmed,
    non-empty and starting with `*` or `#`.
  */
  lemma FocusedChunksShape(text: string)
    requires FocusedChunks(text).Ok?
    ensures var cs := FocusedChunks(text).value;
      && WellChunked(cs)
      && Flatten(cs) == OutlineLines(Lines(text[Window(text).value.0..Window(text).value.1]))
      && forall k, j :: 0 <= k < |cs| && 0 <= j < |cs[k]| ==> IsOutlineLine(cs[k][j]) && IsTrimmed(cs[k][j])
  {
    var (first, last) := Window(text).value;
    var kept := OutlineLines(Lines(text[first..last]));
    var cs := Chunks(kept);
    ChunksAreChunking(kept);
    OutlineLinesKept(Lines(text[first..last]));
    forall k, j | 0 <= k < |cs| && 0 <= j < |cs[k]| ensures IsOutlineLine(cs[k][j]) && IsTrimmed(cs[k][j]) {
      FlattenMember(cs, k, j);
    }
  }

  /**
    The titles of the deck lines, in order, as `map(get_deck_title).collect()`
    gives them: the first malformed line stops it with that line's panic.
  */
  function DeckTitles(lines: seq<string>): (r: Result<seq<string>, Failure>)
    ensures r.Ok? <==> forall k :: 0 <= k < |lines| ==> DeckTitle(lines[k]).Ok?
    ensures r.Ok? ==> |r.value| == |lines| && forall k :: 0 <= k < |lines| ==> DeckTitle(lines[k]) == Ok(r.value[k])
    ensures r.Err? ==> exists k :: 0 <= k < |lines| && DeckTitle(lines[k]) == Err(r.error)
                                   && forall j :: 0 <= j < k ==> DeckTitle(lines[j]).Ok?
  {
    if lines == [] then Ok([])
    else match DeckTitle(lines[0])
      case Err(e) => Err(e)
      case Ok(t) =>
        match DeckTitles(lines[1..])
        case Err(e) =>
          assert forall k :: 0 <= k < |lines| - 1 ==> lines[1..][k] == lines[k + 1];
          Err(e)
        case Ok(ts) => Ok([t] + ts)
  }

  /**
    `list_of_strings_to_slide_section`: the first line without its `"# "` is
    the header, every further line gives one deck title, in order.
  */
  function ToSection(chunk: seq<string>): (r: Result<SlidesSection, Failure>)
    ensures r.Ok? <==> && |chunk| >= 2 && StartsWith(chunk[0], "# ")
                       && forall k :: 1 <= k < |chunk| ==> DeckTitle(chunk[k]).Ok?
    ensures |chunk| < 2 ==> r == Err(SectionTooShort)
    ensures |chunk| >= 2 && !StartsWith(chunk[0], "# ") ==> r == Err(MalformedHeader)
    ensures r.Ok? ==> chunk[0] == "# " + r.value.header
    ensures r.Ok? ==> && |r.value.deckTitles| == |chunk| - 1
                      && forall k :: 0 <= k < |chunk| - 1 ==> DeckTitle(chunk[k + 1]) == Ok(r.value.deckTitles[k])
  {
    if |chunk| < 2 then Err(SectionTooShort)
    else if !StartsWith(chunk[0], "# ") then Err(MalformedHeader)
    else
      assert forall k :: 1 <= k < |chunk| ==> chunk[1..][k - 1] == chunk[k];
      match DeckTitles(chunk[1..])
      case Err(e) => Err(e)
      case Ok(titles) =>
        assert chunk[0] == chunk[0][..2] + chunk[0][2..];
        Ok(SlidesSection(chunk[0][2..], titles))
  }

  /** Each chunk as a section, in order; the first chunk that panics stops it. */
  function ChunkSections(chunks: seq<seq<string>>): (r: Result<seq<SlidesSection>, Failure>)
    ensures r.Ok? <==> forall k :: 0 <= k < |chunks| ==> ToSection(chunks[k]).Ok?
    ensures r.Ok? ==> |r.value| == |chunks| && forall k :: 0 <= k < |chunks| ==> ToSection(chunks[k]) == Ok(r.value[k])
    ensures r.Err? ==> exists k :: 0 <= k < |chunks| && ToSection(chunks[k]) == Err(r.error)
                                   && forall j :: 0 <= j < k ==> ToSection(chunks[j]).Ok?
  {
    if chunks == [] then Ok([])
    else match ToSection(chunks[0])
      case Err(e) => Err(e)
      case Ok(sec) =>
        match ChunkSections(chunks[1..])
        case Err(e) =>
          assert forall k :: 0 <= k < |chunks| - 1 ==> chunks[1..][k] == chunks[k + 1];
          Err(e)
        case Ok(secs) => Ok([sec] + secs)
  }

  /** The slide sections of the outline text, as `make_cheatsheet` and `test_cheatsheet` compute them. */
  function Sections(text: string): Result<seq<SlidesSection>, Failure> {
    match FocusedChunks(text)
    case Err(e) => Err(e)
    case Ok(chunks) => ChunkSections(chunks)
  }
}
