/**
  `render_cheatsheet` (xtask/src/tasks.rs): every section becomes its
  `# header` line, one `## title` line per slide deck and a blank line.
  `RenderLines` is the cheatsheet as a list of lines; the method builds the
  text with the source's two nested loops and is proved to give exactly
  those lines, each followed by a line ending.
*/
module Render {
  import opened RustStr
  import opened Outline

  /** The `## title` lines of a section, in deck order. */
  function DeckLines(titles: seq<string>): (r: seq<string>)
    ensures |r| == |titles|
    ensures forall k :: 0 <= k < |titles| ==> r[k] == "## " + titles[k]
  {
    if titles == [] then [] else DeckLines(titles[..|titles| - 1]) + ["## " + titles[|titles| - 1]]
  }

  /** The heading line and the deck lines of one section, as `test_cheatsheet` later reads them back. */
  function SectionChunk(s: SlidesSection): seq<string> {
    ["# " + s.header] + DeckLines(s.deckTitles)
  }

  /** The lines one section contributes: its chunk, then a blank line. */
  function SectionLines(s: SlidesSection): seq<string> {
    SectionChunk(s) + [""]
  }

  function RenderLines(ss: seq<SlidesSection>): seq<string> {
    if ss == [] then [] else RenderLines(ss[..|ss| - 1]) + SectionLines(ss[|ss| - 1])
  }

  /** The text `render_cheatsheet` returns. */
  function RenderText(ss: seq<SlidesSection>): string {
    Unlines(RenderLines(ss))
  }

  /** Number of lines of the cheatsheet: two per section plus one per slide deck. */
  function LineCount(ss: seq<SlidesSection>): nat {
    if ss == [] then 0 else LineCount(ss[..|ss| - 1]) + |ss[|ss| - 1].deckTitles| + 2
  }

  lemma {:induction false} RenderLinesCount(ss: seq<SlidesSection>)
    ensures |RenderLines(ss)| == LineCount(ss)
    decreases |ss|
  {
    if ss != [] {
      RenderLinesCount(ss[..|ss| - 1]);
    }
  }

  /** No header and no title breaks a line or ends in `'\r'`. */
  predicate PlainSection(s: SlidesSection) {
    && IsPlainLine("# " + s.header)
    && forall k :: 0 <= k < |s.deckTitles| ==> IsPlainLine("## " + s.deckTitles[k])
  }

  lemma {:induction false} RenderLinesPlain(ss: seq<SlidesSection>)
    requires forall k :: 0 <= k < |ss| ==> PlainSection(ss[k])
    ensures forall k :: 0 <= k < |RenderLines(ss)| ==> IsPlainLine(RenderLines(ss)[k])
    decreases |ss|
  {
    if ss != [] {
      RenderLinesPlain(ss[..|ss| - 1]);
      var s := ss[|ss| - 1];
      var d := DeckLines(s.deckTitles);
      assert forall k :: 0 <= k < |d| ==> IsPlainLine(d[k]);
    }
  }

  /**
    When no header or title contains a line break (or ends in `'\r'`),
    `str::lines` on the rendered text gives back exactly the rendered lines.
  */
  lemma RenderedLines(ss: seq<SlidesSection>)
    requires forall k :: 0 <= k < |ss| ==> PlainSection(ss[k])
    ensures Lines(RenderText(ss)) == RenderLines(ss)
  {
    RenderLinesPlain(ss);
    LinesOfUnlines(RenderLines(ss));
  }

  lemma UnlinesOne(l: string)
    ensures Unlines([l]) == l + "\n"
  {
    assert [l][..0] == [];
  }

  /** Pushing one more `## title` line onto the section buffer. */
  lemma SectionBufferStep(header: string, titles: seq<string>, j: nat)
    requires j < |titles|
    ensures Unlines([header] + DeckLines(titles[..j + 1]))
            == Unlines([header] + DeckLines(titles[..j])) + "## " + titles[j] + "\n"
  {
    assert titles[..j + 1][..j] == titles[..j];
    var before := [header] + DeckLines(titles[..j]);
    assert [header] + DeckLines(titles[..j + 1]) == before + ["## " + titles[j]];
    UnlinesAppend(before, ["## " + titles[j]]);
    UnlinesOne("## " + titles[j]);
  }

  /** Appending one finished section buffer to the result. */
  lemma RenderStep(ss: seq<SlidesSection>, i: nat)
    requires i < |ss|
    ensures Unlines(RenderLines(ss[..i + 1])) == Unlines(RenderLines(ss[..i])) + (Unlines(SectionChunk(ss[i])) + "\n")
  {
    assert ss[..i + 1][..i] == ss[..i];
    UnlinesAppend(RenderLines(ss[..i]), SectionLines(ss[i]));
    UnlinesAppend(SectionChunk(ss[i]), [""]);
    UnlinesOne("");
  }

  /** `render_cheatsheet`. */
  method RenderCheatsheet(ss: seq<SlidesSection>) returns (res: string)
    ensures res == RenderText(ss)
  {
    res := "";
    for i := 0 to |ss|
      invariant res == Unlines(RenderLines(ss[..i]))
    {
      var slide := ss[i];
      var buf := "# " + slide.header + "\n";
      UnlinesOne("# " + slide.header);
      assert slide.deckTitles[..0] == [];
      for j := 0 to |slide.deckTitles|
        invariant buf == Unlines(["# " + slide.header] + DeckLines(slide.deckTitles[..j]))
      {
        SectionBufferStep("# " + slide.header, slide.deckTitles, j);
        buf := buf + ("## " + slide.deckTitles[j] + "\n");
      }
      assert slide.deckTitles[..|slide.deckTitles|] == slide.deckTitles;
      buf := buf + "\n";
      RenderStep(ss, i);
      res := res + buf;
    }
    assert ss[..|ss|] == ss;
  }
}
