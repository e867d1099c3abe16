/**
  `make_cheatsheet` and `test_cheatsheet` (xtask/src/tasks.rs) over a file
  system given as a map from path to contents: a missing key is a file that
  cannot be read, and creating a file adds a key.  Both read and parse the
  outline `SUMMARY.md` first; `test_cheatsheet` then checks the language's
  cheatsheet against it, and `make_cheatsheet` either writes a fresh
  cheatsheet (when none exists) or checks the existing one.
*/
module Tasks {
  import opened Wrappers
  import opened RustStr
  import opened Chunking
  import opened Outline
  import opened Render
  import opened CheatsheetCheck

  type Files = map<string, string>

  const SlidesDir: string := "./training-slides/src/"
  const SummaryPath: string := SlidesDir + "SUMMARY.md"

  /** `./training-slides/src/{lang}-cheatsheet.md`. */
  function CheatsheetPath(lang: string): (p: string)
    ensures p != SummaryPath
  {
    assert |SummaryPath| == 32;
    SlidesDir + lang + "-cheatsheet.md"
  }

  /** The chunks `test_cheatsheet` groups the cheatsheet text into. */
  function CheatsheetChunks(text: string): (r: seq<seq<string>>)
    ensures NonEmptyChunks(r)
  {
    ChunksAreChunking(CheatLines(Lines(text)));
    Chunks(CheatLines(Lines(text)))
  }

  /** What `test_cheatsheet(lang)` ends in: a failure before the comparison, or the comparison's report. */
  function TestOutcome(files: Files, lang: string): Result<Report, Failure> {
    if SummaryPath !in files then Err(SummaryNotFound)
    else match Sections(files[SummaryPath])
      case Err(e) => Err(e)
      case Ok(sections) =>
        if CheatsheetPath(lang) !in files then Err(CheatsheetNotFound)
        else Ok(Check(CheatsheetChunks(files[CheatsheetPath(lang)]), sections))
  }

  /** `test_cheatsheet`. */
  method TestCheatsheet(files: Files, lang: string) returns (r: Result<Report, Failure>)
    ensures r == TestOutcome(files, lang)
  {
    if SummaryPath !in files {
      return Err(SummaryNotFound);
    }
    var slideTexts := FocusRegions(files[SummaryPath]);
    if slideTexts.Err? {
      return Err(slideTexts.error);
    }
    var slideSections := ChunkSections(slideTexts.value);
    if slideSections.Err? {
      return Err(slideSections.error);
    }
    var fileName := CheatsheetPath(lang);
    if fileName !in files {
      return Err(CheatsheetNotFound);
    }
    var chunked := ChunkCheatsheet(Lines(files[fileName]));
    ChunksAreChunking(CheatLines(Lines(files[fileName])));
    var report := CheckCheatsheet(chunked, slideSections.value);
    r := Ok(report);
  }

  /** Which branch `make_cheatsheet` took. */
  datatype Made = Created | Checked(report: Report)

  /**
    What `make_cheatsheet(lang)` ends in: the file system afterwards and the
    branch taken.  `File::create_new` succeeds exactly when the cheatsheet
    does not exist yet.
  */
  function MakeOutcome(files: Files, lang: string): (r: Result<(Files, Made), Failure>)
    ensures r.Ok? ==> r.value.0.Keys == files.Keys + {CheatsheetPath(lang)}
    ensures r.Ok? ==> forall p :: p in files ==> r.value.0[p] == files[p]
    ensures r.Ok? && r.value.1.Created? <==>
      SummaryPath in files && Sections(files[SummaryPath]).Ok? && CheatsheetPath(lang) !in files
    ensures r.Ok? && r.value.1.Created? ==>
      r.value.0[CheatsheetPath(lang)] == RenderText(Sections(files[SummaryPath]).value)
    ensures r.Ok? && r.value.1.Checked? ==> r.value.0 == files && TestOutcome(files, lang) == Ok(r.value.1.report)
  {
    if SummaryPath !in files then Err(SummaryNotFound)
    else match Sections(files[SummaryPath])
      case Err(e) => Err(e)
      case Ok(sections) =>
        var path := CheatsheetPath(lang);
        if path !in files then Ok((files[path := RenderText(sections)], Created))
        else match TestOutcome(files, lang)
          case Err(e) => Err(e)
          case Ok(report) => Ok((files, Checked(report)))
  }

  /** `make_cheatsheet`. */
  method MakeCheatsheet(files: Files, lang: string) returns (r: Result<(Files, Made), Failure>)
    ensures r == MakeOutcome(files, lang)
  {
    if SummaryPath !in files {
      return Err(SummaryNotFound);
    }
    var slideTexts := FocusRegions(files[SummaryPath]);
    if slideTexts.Err? {
      return Err(slideTexts.error);
    }
    var slideSections := ChunkSections(slideTexts.value);
    if slideSections.Err? {
      return Err(slideSections.error);
    }
    var fileStr := CheatsheetPath(lang);
    if fileStr !in files {
      var resultText := RenderCheatsheet(slideSections.value);
      return Ok((files[fileStr := resultText], Created));
    }
    var checked := TestCheatsheet(files, lang);
    r := match checked
      case Err(e) => Err(e)
      case Ok(report) => Ok((files, Checked(report)));
  }

  /**
    Running `make_cheatsheet` a second time creates nothing and changes no
    file: it only checks the cheatsheet the first run wrote.
  */
  lemma MakeTwice(files: Files, lang: string)
    requires MakeOutcome(files, lang).Ok?
    ensures var (after, _) := MakeOutcome(files, lang).value;
      && MakeOutcome(after, lang).Ok?
      && MakeOutcome(after, lang).value.0 == after
      && MakeOutcome(after, lang).value.1.Checked?
  {
    var (after, made) := MakeOutcome(files, lang).value;
    assert after[SummaryPath] == files[SummaryPath];
    assert CheatsheetPath(lang) in after;
    if made.Created? {
      var sections := Sections(files[SummaryPath]).value;
      assert after[CheatsheetPath(lang)] == RenderText(sections);
      assert TestOutcome(after, lang).Ok?;
    }
  }

  /**
    An outline whose sections are the four expected headings in order,
    each with at least one deck, and whose headings and titles are single
    lines.
  */
  predicate ConformingOutline(sections: seq<SlidesSection>) {
    && |sections| == NumHeaders
    && (forall k :: 0 <= k < |sections| ==> "# " + sections[k].header == Headers[k])
    && (forall k :: 0 <= k < |sections| ==> sections[k].deckTitles != [])
    && (forall k :: 0 <= k < |sections| ==> PlainSection(sections[k]))
  }

  /** The heading-and-decks chunk of every section, in order. */
  function SectionChunks(ss: seq<SlidesSection>): (r: seq<seq<string>>)
    ensures |r| == |ss| && forall k :: 0 <= k < |ss| ==> r[k] == SectionChunk(ss[k])
  {
    if ss == [] then [] else SectionChunks(ss[..|ss| - 1]) + [SectionChunk(ss[|ss| - 1])]
  }

  lemma {:induction false} CheatLinesAll(lines: seq<string>)
    requires forall k :: 0 <= k < |lines| ==> IsCheatLine(lines[k])
    ensures CheatLines(lines) == lines
    decreases |lines|
  {
    if lines != [] {
      CheatLinesAll(lines[..|lines| - 1]);
      assert lines[..|lines| - 1] + [lines[|lines| - 1]] == lines;
    }
  }

  /** `# ` and `## ` lines are kept; the blank line after each section is not. */
  lemma CheatLinesOfSection(s: SlidesSection)
    ensures CheatLines(SectionLines(s)) == SectionChunk(s)
  {
    var c := SectionChunk(s);
    forall k | 0 <= k < |c| ensures IsCheatLine(c[k]) {
      assert c[k][..1] == "#";
    }
    CheatLinesAll(c);
    CheatLinesAppend(c, [""]);
    assert CheatLines([""]) == [] by {
      assert [""][..0] == [];
    }
  }

  lemma {:induction false} CheatLinesOfRender(ss: seq<SlidesSection>)
    ensures CheatLines(RenderLines(ss)) == Flatten(SectionChunks(ss))
    decreases |ss|
  {
    if ss != [] {
      var init := ss[..|ss| - 1];
      CheatLinesOfRender(init);
      CheatLinesAppend(RenderLines(init), SectionLines(ss[|ss| - 1]));
      CheatLinesOfSection(ss[|ss| - 1]);
      FlattenSnoc(SectionChunks(init), SectionChunk(ss[|ss| - 1]));
    }
  }

  /** A `## ` line never opens a chunk. */
  lemma DeckLineNotHeading(t: string)
    ensures !IsHeading("## " + t)
  {
    assert ("## " + t)[1] == '#';
  }

  lemma SectionChunksWellChunked(ss: seq<SlidesSection>)
    ensures WellChunked(SectionChunks(ss))
  {
    var cs := SectionChunks(ss);
    forall k | 0 <= k < |cs| ensures IsHeading(cs[k][0]) {
      assert cs[k][0] == "# " + ss[k].header;
      assert cs[k][0][..2] == "# ";
    }
    forall k, j | 0 <= k < |cs| && 0 < j < |cs[k]| ensures !IsHeading(cs[k][j]) {
      assert cs[k][j] == "## " + ss[k].deckTitles[j - 1];
      DeckLineNotHeading(ss[k].deckTitles[j - 1]);
    }
  }

  /** Reading a rendered cheatsheet back gives one chunk per section: its heading line and its deck lines. */
  lemma RenderedChunks(sections: seq<SlidesSection>)
    requires forall k :: 0 <= k < |sections| ==> PlainSection(sections[k])
    ensures CheatsheetChunks(RenderText(sections)) == SectionChunks(sections)
  {
    RenderedLines(sections);
    CheatLinesOfRender(sections);
    SectionChunksWellChunked(sections);
    ChunksOfFlatten(SectionChunks(sections));
  }

  /** The chunks of a conforming outline's own sections pass every comparison. */
  lemma SectionChunksInSync(sections: seq<SlidesSection>)
    requires ConformingOutline(sections)
    ensures Check(SectionChunks(sections), sections) == Report([], InSync)
  {
    var cs := SectionChunks(sections);
    forall k | 0 <= k < |cs| ensures ChunkInSync(k, cs[k], sections) {
      var titles := sections[k].deckTitles;
      assert cs[k][1..] == DeckLines(titles);
      forall i | 0 <= i < |titles| ensures "## " + titles[i] in cs[k][1..] {
        assert cs[k][1..][i] == "## " + titles[i];
      }
    }
    CheckInSync(cs, sections);
  }

  /**
    The round trip of the two commands: a cheatsheet rendered from a
    conforming outline is reported in sync with that outline, with no
    complaint.
  */
  lemma RenderedCheatsheetInSync(sections: seq<SlidesSection>)
    requires ConformingOutline(sections)
    ensures Check(CheatsheetChunks(RenderText(sections)), sections) == Report([], InSync)
  {
    RenderedChunks(sections);
    SectionChunksInSync(sections);
  }

  /**
    After `make_cheatsheet` has created the cheatsheet of a conforming
    outline, `test_cheatsheet` finds it in sync.
  */
  lemma MakeThenTest(files: Files, lang: string)
    requires MakeOutcome(files, lang).Ok? && MakeOutcome(files, lang).value.1.Created?
    requires ConformingOutline(Sections(files[SummaryPath]).value)
    ensures TestOutcome(MakeOutcome(files, lang).value.0, lang) == Ok(Report([], InSync))
  {
    var sections := Sections(files[SummaryPath]).value;
    var after := MakeOutcome(files, lang).value.0;
    assert after[SummaryPath] == files[SummaryPath];
    assert after[CheatsheetPath(lang)] == RenderText(sections);
    RenderedCheatsheetInSync(sections);
  }
}
