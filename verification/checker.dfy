/**
  The checking half of `test_cheatsheet` (xtask/src/tasks.rs): the
  cheatsheet's `#` lines are grouped into chunks by the same loop as the
  outline, and each chunk is compared with the expected heading and with the
  decks of the outline section at the same position.  Every complaint the
  source prints is a `Diagnostic`; the final verdict is `InSync`, the
  "missing slides" panic (`OutOfSync`), or one of the three panics the code
  can hit on the way (an empty cheatsheet, a fifth chunk indexing `HEADERS`,
  a chunk with no outline section at its position).
*/
module CheatsheetCheck {
  import opened Wrappers
  import opened RustStr
  import opened Chunking
  import opened Outline

  /** `HEADERS`: the expected heading of each chunk, in order. */
  const Headers: seq<string> := [InitialHeader, "# Applied Rust", "# Advanced Rust", "# Rust and Web Assembly"]
  /** `_NUM_HEADERS`. */
  const NumHeaders: nat := 4

  /** A complaint `test_cheatsheet` prints before deciding. */
  datatype Diagnostic =
    | MissingHeaders                               // not exactly four chunks
    | HeaderError(expected: string)                // chunk's first line is not the expected heading
    | MissingAllDecks(header: string)              // chunk holds only its heading
    | DeckNotUnderHeader(deck: string, header: string)  // no `## deck` line in the chunk

  datatype Verdict =
    | InSync                  // `Ok(())`
    | OutOfSync               // panic "You have missing slides"
    | EmptyCheatsheet         // `.first().expect(..)` on no chunks
    | HeaderIndexOutOfRange   // `HEADERS[idx]` with `idx >= 4`
    | SectionIndexOutOfRange  // `slide_sections[idx]` past the outline's sections

  datatype Report = Report(diagnostics: seq<Diagnostic>, verdict: Verdict)

  /** A cheatsheet line the check keeps: non-empty and starting with `#`. */
  predicate IsCheatLine(line: string) {
    line != [] && StartsWith(line, "#")
  }

  /** The cheatsheet lines the check keeps, unchanged and in order. */
  function CheatLines(lines: seq<string>): (r: seq<string>)
    ensures |r| <= |lines|
  {
    if lines == [] then []
    else CheatLines(lines[..|lines| - 1]) + (if IsCheatLine(lines[|lines| - 1]) then [lines[|lines| - 1]] else [])
  }

  /** The kept lines are exactly the `#` lines, in order. */
  lemma {:induction false} CheatLinesKept(lines: seq<string>)
    ensures forall k :: 0 <= k < |CheatLines(lines)| ==> IsCheatLine(CheatLines(lines)[k])
    ensures forall l :: l in lines && IsCheatLine(l) ==> l in CheatLines(lines)
    ensures forall l :: l in CheatLines(lines) ==> l in lines
    decreases |lines|
  {
    if lines != [] {
      var init := lines[..|lines| - 1];
      CheatLinesKept(init);
      assert lines == init + [lines[|lines| - 1]];
    }
  }

  /** The filter keeps order and multiplicity: the kept lines of `a + b` are those of `a`, then those of `b`. */
  lemma {:induction false} CheatLinesAppend(a: seq<string>, b: seq<string>)
    ensures CheatLines(a + b) == CheatLines(a) + CheatLines(b)
    decreases |b|
  {
    if b == [] {
      assert a + b == a;
    } else {
      assert (a + b)[..|a + b| - 1] == a + b[..|b| - 1];
      CheatLinesAppend(a, b[..|b| - 1]);
    }
  }

  /** A single line is kept exactly when it is a `#` line. */
  lemma CheatLinesOne(l: string)
    ensures CheatLines([l]) == if IsCheatLine(l) then [l] else []
  {
    assert [l][..0] == [];
  }

  /** One more cheatsheet line through the loop. */
  lemma CheatStep(lines: seq<string>, i: nat)
    requires i < |lines|
    ensures var st := ScanFrom(Scan([], []), CheatLines(lines[..i]));
      ScanFrom(Scan([], []), CheatLines(lines[..i + 1])) == if IsCheatLine(lines[i]) then ChunkStep(st, lines[i]) else st
  {
    var kept := CheatLines(lines[..i]);
    assert lines[..i + 1][..i] == lines[..i];
    if IsCheatLine(lines[i]) {
      assert CheatLines(lines[..i + 1]) == kept + [lines[i]];
      ScanSnoc(Scan([], []), kept, lines[i]);
    } else {
      assert CheatLines(lines[..i + 1]) == kept;
    }
  }

  /** The chunking loop of `test_cheatsheet` over the lines of the cheatsheet. */
  method ChunkCheatsheet(lines: seq<string>) returns (chunked: seq<seq<string>>)
    ensures chunked == Chunks(CheatLines(lines))
  {
    chunked := [];
    var current: seq<string> := [];
    for i := 0 to |lines|
      invariant Scan(chunked, current) == ScanFrom(Scan([], []), CheatLines(lines[..i]))
    {
      var line := lines[i];
      CheatStep(lines, i);
      // empty, or not starting with '#'
      if !IsCheatLine(line) {
        continue;
      }
      // a line starting with "# " closes a non-empty section and opens a fresh one with itself
      if IsHeading(line) && current != [] {
        chunked := chunked + [current];
        current := [line];
      } else {
        current := current + [line];
      }
    }
    assert lines[..|lines|] == lines;
    if current != [] {
      chunked := chunked + [current];
    }
  }

  /** The decks of `decks` with no `## deck` line in `body`, one complaint each, in deck order. */
  function MissingDecks(decks: seq<string>, body: seq<string>, header: string): (r: seq<Diagnostic>)
    ensures r == [] <==> forall k :: 0 <= k < |decks| ==> "## " + decks[k] in body
  {
    if decks == [] then []
    else
      var d := decks[|decks| - 1];
      var init := MissingDecks(decks[..|decks| - 1], body, header);
      assert forall k :: 0 <= k < |decks| - 1 ==> decks[..|decks| - 1][k] == decks[k];
      init + (if "## " + d in body then [] else [DeckNotUnderHeader(d, header)])
  }

  lemma MissingDecksSnoc(decks: seq<string>, j: nat, body: seq<string>, header: string)
    requires j < |decks|
    ensures MissingDecks(decks[..j + 1], body, header)
            == MissingDecks(decks[..j], body, header) + (if "## " + decks[j] in body then [] else [DeckNotUnderHeader(decks[j], header)])
  {
    assert decks[..j + 1][..j] == decks[..j];
  }

  /** Every deck of the section with no `## deck` line in the chunk is complained about. */
  lemma {:induction false} MissingDecksComplete(decks: seq<string>, body: seq<string>, header: string)
    ensures forall k :: 0 <= k < |decks| && "## " + decks[k] !in body ==>
      DeckNotUnderHeader(decks[k], header) in MissingDecks(decks, body, header)
    decreases |decks|
  {
    if decks != [] {
      var init := decks[..|decks| - 1];
      MissingDecksComplete(init, body, header);
      forall k | 0 <= k < |decks| && "## " + decks[k] !in body
        ensures DeckNotUnderHeader(decks[k], header) in MissingDecks(decks, body, header)
      {
        if k < |init| {
          assert init[k] == decks[k];
        }
      }
    }
  }

  /** The complaints for two runs of decks are those of the first run, then those of the second. */
  lemma {:induction false} MissingDecksAppend(a: seq<string>, b: seq<string>, body: seq<string>, header: string)
    ensures MissingDecks(a + b, body, header) == MissingDecks(a, body, header) + MissingDecks(b, body, header)
    decreases |b|
  {
    if b == [] {
      assert a + b == a;
    } else {
      var b' := b[..|b| - 1];
      MissingDecksAppend(a, b', body, header);
      MissingDecksLast(a + b, body, header);
      MissingDecksLast(b, body, header);
      assert (a + b)[..|a + b| - 1] == a + b';
      assert (a + b)[|a + b| - 1] == b[|b| - 1];
    }
  }

  lemma MissingDecksLast(decks: seq<string>, body: seq<string>, header: string)
    requires decks != []
    ensures var d := decks[|decks| - 1];
      MissingDecks(decks, body, header)
      == MissingDecks(decks[..|decks| - 1], body, header) + (if "## " + d in body then [] else [DeckNotUnderHeader(d, header)])
  {
  }

  /** One deck: one complaint exactly when its `## deck` line is absent. */
  lemma MissingDecksOne(d: string, body: seq<string>, header: string)
    ensures MissingDecks([d], body, header) == if "## " + d in body then [] else [DeckNotUnderHeader(d, header)]
  {
    assert [d][..0] == [];
  }

  /** Every complaint about a deck names a deck of the section that is really missing. */
  lemma {:induction false} MissingDecksAreMissing(decks: seq<string>, body: seq<string>, header: string)
    ensures forall x :: x in MissingDecks(decks, body, header) ==>
      x.DeckNotUnderHeader? && x.header == header && x.deck in decks && "## " + x.deck !in body
    decreases |decks|
  {
    if decks != [] {
      MissingDecksAreMissing(decks[..|decks| - 1], body, header);
    }
  }

  /** What the check has said so far, and the panic or early stop that ended it, if any. */
  datatype Progress = Progress(diagnostics: seq<Diagnostic>, stop: Option<Verdict>)

  /** One iteration of the `for (idx, section)` loop. */
  function ChunkCheck(idx: nat, chunk: seq<string>, sections: seq<SlidesSection>): Progress
    requires chunk != []
  {
    if idx >= NumHeaders then Progress([], Some(HeaderIndexOutOfRange))
    else
      var headerDiag := if Headers[idx] != chunk[0] then [HeaderError(Headers[idx])] else [];
      if |chunk| == 1 then Progress(headerDiag + [MissingAllDecks(Headers[idx])], None)
      else if idx >= |sections| then Progress(headerDiag, Some(SectionIndexOutOfRange))
      else Progress(headerDiag + MissingDecks(sections[idx].deckTitles, chunk[1..], Headers[idx]), None)
  }

  predicate NonEmptyChunks(chunks: seq<seq<string>>) {
    forall k :: 0 <= k < |chunks| ==> chunks[k] != []
  }

  /** The state of the check after the first `n` chunks, starting with the chunk-count complaint. */
  function CheckUpTo(chunks: seq<seq<string>>, sections: seq<SlidesSection>, n: nat): Progress
    requires NonEmptyChunks(chunks) && n <= |chunks|
  {
    if n == 0 then Progress(if |chunks| != NumHeaders then [MissingHeaders] else [], None)
    else
      var p := CheckUpTo(chunks, sections, n - 1);
      if p.stop.Some? then p
      else
        var step := ChunkCheck(n - 1, chunks[n - 1], sections);
        Progress(p.diagnostics + step.diagnostics, step.stop)
  }

  /** The report `test_cheatsheet` reaches for the chunked cheatsheet and the outline's sections. */
  function Check(chunks: seq<seq<string>>, sections: seq<SlidesSection>): Report
    requires NonEmptyChunks(chunks)
  {
    if chunks == [] then Report([], EmptyCheatsheet)
    else
      var p := CheckUpTo(chunks, sections, |chunks|);
      if p.stop.Some? then Report(p.diagnostics, p.stop.value)
      else Report(p.diagnostics, if p.diagnostics != [] then OutOfSync else InSync)
  }

  /** Once the check has stopped, later chunks change nothing. */
  lemma {:induction false} CheckStopped(chunks: seq<seq<string>>, sections: seq<SlidesSection>, n: nat, m: nat)
    requires NonEmptyChunks(chunks) && n <= m <= |chunks|
    requires CheckUpTo(chunks, sections, n).stop.Some?
    ensures CheckUpTo(chunks, sections, m) == CheckUpTo(chunks, sections, n)
    decreases m
  {
    if m > n {
      CheckStopped(chunks, sections, n, m - 1);
    }
  }

  /** A panic after `n` chunks is the check's verdict. */
  lemma CheckEndsEarly(chunks: seq<seq<string>>, sections: seq<SlidesSection>, n: nat, diagnostics: seq<Diagnostic>, v: Verdict)
    requires NonEmptyChunks(chunks) && 0 < n <= |chunks|
    requires CheckUpTo(chunks, sections, n) == Progress(diagnostics, Some(v))
    ensures Check(chunks, sections) == Report(diagnostics, v)
  {
    CheckStopped(chunks, sections, n, |chunks|);
  }

  /** A loop that runs to the end gives its own verdict: in sync exactly when nothing was said. */
  lemma CheckEndsInVerdict(chunks: seq<seq<string>>, sections: seq<SlidesSection>, diagnostics: seq<Diagnostic>)
    requires NonEmptyChunks(chunks) && chunks != []
    requires CheckUpTo(chunks, sections, |chunks|) == Progress(diagnostics, None)
    ensures Check(chunks, sections) == Report(diagnostics, if diagnostics != [] then OutOfSync else InSync)
  {
  }

  /** One more chunk through the loop, while the check has not stopped. */
  lemma CheckNext(chunks: seq<seq<string>>, sections: seq<SlidesSection>, idx: nat, diagnostics: seq<Diagnostic>)
    requires NonEmptyChunks(chunks) && idx < |chunks|
    requires CheckUpTo(chunks, sections, idx) == Progress(diagnostics, None)
    ensures var step := ChunkCheck(idx, chunks[idx], sections);
      CheckUpTo(chunks, sections, idx + 1) == Progress(diagnostics + step.diagnostics, step.stop)
  {
  }

  /** The complaints only accumulate: those after `n` chunks are a prefix of those after `m >= n`. */
  lemma {:induction false} CheckUpToGrows(chunks: seq<seq<string>>, sections: seq<SlidesSection>, n: nat, m: nat)
    requires NonEmptyChunks(chunks) && n <= m <= |chunks|
    ensures CheckUpTo(chunks, sections, n).diagnostics <= CheckUpTo(chunks, sections, m).diagnostics
    decreases m
  {
    if m > n {
      CheckUpToGrows(chunks, sections, n, m - 1);
      CheckUpToStep(chunks, sections, m);
      PrefixTrans(CheckUpTo(chunks, sections, n).diagnostics, CheckUpTo(chunks, sections, m - 1).diagnostics,
                  CheckUpTo(chunks, sections, m).diagnostics);
    }
  }

  /** One iteration only adds complaints. */
  lemma CheckUpToStep(chunks: seq<seq<string>>, sections: seq<SlidesSection>, n: nat)
    requires NonEmptyChunks(chunks) && 0 < n <= |chunks|
    ensures CheckUpTo(chunks, sections, n - 1).diagnostics <= CheckUpTo(chunks, sections, n).diagnostics
  {
    var p := CheckUpTo(chunks, sections, n - 1);
    if p.stop.None? {
      var step := ChunkCheck(n - 1, chunks[n - 1], sections);
      assert CheckUpTo(chunks, sections, n).diagnostics == p.diagnostics + step.diagnostics;
    }
  }

  lemma PrefixTrans(a: seq<Diagnostic>, b: seq<Diagnostic>, c: seq<Diagnostic>)
    requires a <= b && b <= c
    ensures a <= c
  {
    assert b[..|a|] == a;
    assert c[..|b|][..|a|] == c[..|a|];
  }

  lemma PrefixMember(a: seq<Diagnostic>, b: seq<Diagnostic>, x: Diagnostic)
    requires a <= b && x in a
    ensures x in b
  {
    var i :| 0 <= i < |a| && a[i] == x;
    assert b[..|a|][i] == b[i];
  }

  /** The complaints of a chunk the loop reaches all end up in the report. */
  lemma StepComplaintsKept(chunks: seq<seq<string>>, sections: seq<SlidesSection>, idx: nat)
    requires NonEmptyChunks(chunks) && idx < |chunks|
    requires CheckUpTo(chunks, sections, idx).stop.None?
    ensures forall x :: x in ChunkCheck(idx, chunks[idx], sections).diagnostics ==> x in Check(chunks, sections).diagnostics
  {
    var before := CheckUpTo(chunks, sections, idx).diagnostics;
    var step := ChunkCheck(idx, chunks[idx], sections).diagnostics;
    CheckNext(chunks, sections, idx, before);
    var after := CheckUpTo(chunks, sections, idx + 1).diagnostics;
    assert after == before + step;
    CheckUpToGrows(chunks, sections, idx + 1, |chunks|);
    CheckReportsAll(chunks, sections);
    forall x | x in step ensures x in Check(chunks, sections).diagnostics {
      var i :| 0 <= i < |step| && step[i] == x;
      assert after[|before| + i] == x;
      PrefixMember(after, CheckUpTo(chunks, sections, |chunks|).diagnostics, x);
    }
  }

  /** The report holds what the loop said over all the chunks. */
  lemma CheckReportsAll(chunks: seq<seq<string>>, sections: seq<SlidesSection>)
    requires NonEmptyChunks(chunks) && chunks != []
    ensures Check(chunks, sections).diagnostics == CheckUpTo(chunks, sections, |chunks|).diagnostics
  {
  }

  /**
    What one iteration complains about: the wrong heading, the heading-only
    chunk, and each deck of the section with no `## deck` line under it.
  */
  lemma ChunkComplaints(idx: nat, chunk: seq<string>, sections: seq<SlidesSection>)
    requires chunk != [] && idx < NumHeaders
    ensures chunk[0] != Headers[idx] ==> HeaderError(Headers[idx]) in ChunkCheck(idx, chunk, sections).diagnostics
    ensures |chunk| == 1 ==> MissingAllDecks(Headers[idx]) in ChunkCheck(idx, chunk, sections).diagnostics
    ensures |chunk| > 1 && idx < |sections| ==>
      forall k :: 0 <= k < |sections[idx].deckTitles| && "## " + sections[idx].deckTitles[k] !in chunk[1..] ==>
        DeckNotUnderHeader(sections[idx].deckTitles[k], Headers[idx]) in ChunkCheck(idx, chunk, sections).diagnostics
  {
    var headerDiag := if Headers[idx] != chunk[0] then [HeaderError(Headers[idx])] else [];
    var step := ChunkCheck(idx, chunk, sections).diagnostics;
    if |chunk| == 1 {
      assert step == headerDiag + [MissingAllDecks(Headers[idx])];
      assert step[|headerDiag|] == MissingAllDecks(Headers[idx]);
    } else if idx < |sections| {
      var decks := sections[idx].deckTitles;
      var missing := MissingDecks(decks, chunk[1..], Headers[idx]);
      assert step == headerDiag + missing;
      MissingDecksComplete(decks, chunk[1..], Headers[idx]);
      forall x | x in missing ensures x in step {
        var i :| 0 <= i < |missing| && missing[i] == x;
        assert step[|headerDiag| + i] == x;
      }
    } else {
      assert step == headerDiag;
    }
    if chunk[0] != Headers[idx] {
      assert step[0] == HeaderError(Headers[idx]);
    }
  }

  /**
    Every complaint the loop prints for a chunk it reaches ends up in the
    report: the wrong heading, the heading-only chunk, and each deck of
    the section with no `## deck` line under it.
  */
  lemma ReachedChunkComplaints(chunks: seq<seq<string>>, sections: seq<SlidesSection>, idx: nat)
    requires NonEmptyChunks(chunks) && idx < |chunks| && idx < NumHeaders
    requires CheckUpTo(chunks, sections, idx).stop.None?
    ensures chunks[idx][0] != Headers[idx] ==> HeaderError(Headers[idx]) in Check(chunks, sections).diagnostics
    ensures |chunks[idx]| == 1 ==> MissingAllDecks(Headers[idx]) in Check(chunks, sections).diagnostics
    ensures |chunks[idx]| > 1 && idx < |sections| ==>
      forall k :: 0 <= k < |sections[idx].deckTitles| && "## " + sections[idx].deckTitles[k] !in chunks[idx][1..] ==>
        DeckNotUnderHeader(sections[idx].deckTitles[k], Headers[idx]) in Check(chunks, sections).diagnostics
  {
    StepComplaintsKept(chunks, sections, idx);
    ChunkComplaints(idx, chunks[idx], sections);
  }

  /** Chunk `idx` passes every comparison: expected heading, at least one deck, all the section's decks. */
  predicate ChunkInSync(idx: nat, chunk: seq<string>, sections: seq<SlidesSection>)
    requires chunk != []
  {
    && idx < NumHeaders && idx < |sections|
    && chunk[0] == Headers[idx]
    && |chunk| > 1
    && forall k :: 0 <= k < |sections[idx].deckTitles| ==> "## " + sections[idx].deckTitles[k] in chunk[1..]
  }

  /** Chunk `idx` does not make the check panic. */
  predicate ChunkSafe(idx: nat, chunk: seq<string>, sections: seq<SlidesSection>) {
    idx < NumHeaders && (|chunk| > 1 ==> idx < |sections|)
  }

  lemma CheckUpToFacts(chunks: seq<seq<string>>, sections: seq<SlidesSection>, n: nat)
    requires NonEmptyChunks(chunks) && n <= |chunks|
    ensures CheckUpTo(chunks, sections, n).stop.None? <==> forall k :: 0 <= k < n ==> ChunkSafe(k, chunks[k], sections)
    ensures CheckUpTo(chunks, sections, n).stop in {None, Some(HeaderIndexOutOfRange), Some(SectionIndexOutOfRange)}
    ensures CheckUpTo(chunks, sections, n).stop.None? ==>
      (CheckUpTo(chunks, sections, n).diagnostics == [] <==>
        |chunks| == NumHeaders && forall k :: 0 <= k < n ==> ChunkInSync(k, chunks[k], sections))
  {
    CheckUpToStops(chunks, sections, n);
    CheckUpToQuiet(chunks, sections, n);
  }

  lemma {:induction false} CheckUpToStops(chunks: seq<seq<string>>, sections: seq<SlidesSection>, n: nat)
    requires NonEmptyChunks(chunks) && n <= |chunks|
    ensures CheckUpTo(chunks, sections, n).stop.None? <==> forall k :: 0 <= k < n ==> ChunkSafe(k, chunks[k], sections)
    ensures CheckUpTo(chunks, sections, n).stop in {None, Some(HeaderIndexOutOfRange), Some(SectionIndexOutOfRange)}
    decreases n
  {
    if n > 0 {
      CheckUpToStops(chunks, sections, n - 1);
      ChunkCheckFacts(n - 1, chunks[n - 1], sections);
      var p := CheckUpTo(chunks, sections, n - 1);
      if p.stop.None? {
        CheckNext(chunks, sections, n - 1, p.diagnostics);
      } else {
        assert CheckUpTo(chunks, sections, n) == p;
      }
    }
  }

  lemma {:induction false} CheckUpToQuiet(chunks: seq<seq<string>>, sections: seq<SlidesSection>, n: nat)
    requires NonEmptyChunks(chunks) && n <= |chunks|
    ensures CheckUpTo(chunks, sections, n).stop.None? ==>
      (CheckUpTo(chunks, sections, n).diagnostics == [] <==>
        |chunks| == NumHeaders && forall k :: 0 <= k < n ==> ChunkInSync(k, chunks[k], sections))
    decreases n
  {
    if n > 0 {
      CheckUpToQuiet(chunks, sections, n - 1);
      ChunkCheckFacts(n - 1, chunks[n - 1], sections);
      var p := CheckUpTo(chunks, sections, n - 1);
      if p.stop.None? {
        CheckNext(chunks, sections, n - 1, p.diagnostics);
      } else {
        assert CheckUpTo(chunks, sections, n) == p;
      }
    }
  }

  /** One iteration panics exactly when its chunk is unsafe, and says nothing exactly when it is in sync. */
  lemma ChunkCheckFacts(idx: nat, chunk: seq<string>, sections: seq<SlidesSection>)
    requires chunk != []
    ensures ChunkCheck(idx, chunk, sections).stop.None? <==> ChunkSafe(idx, chunk, sections)
    ensures ChunkCheck(idx, chunk, sections).stop in {None, Some(HeaderIndexOutOfRange), Some(SectionIndexOutOfRange)}
    ensures ChunkCheck(idx, chunk, sections).stop.None? ==>
      (ChunkCheck(idx, chunk, sections).diagnostics == [] <==> ChunkInSync(idx, chunk, sections))
  {
  }

  /**
    `test_cheatsheet` succeeds exactly when the cheatsheet has the four
    expected headings in order, each followed by at least one line, and
    every deck of the outline's section at that position appears as a
    `## deck` line under it.
  */
  lemma CheckInSync(chunks: seq<seq<string>>, sections: seq<SlidesSection>)
    requires NonEmptyChunks(chunks)
    ensures Check(chunks, sections).verdict == InSync <==>
      |chunks| == NumHeaders && forall k :: 0 <= k < |chunks| ==> ChunkInSync(k, chunks[k], sections)
    ensures Check(chunks, sections).verdict == InSync ==> Check(chunks, sections).diagnostics == []
  {
    CheckUpToFacts(chunks, sections, |chunks|);
  }

  /**
    The check ends in its own verdict (in sync, or the "missing slides"
    panic) rather than an indexing or `expect` panic exactly when the
    cheatsheet is not empty, no chunk lies past the fourth, and every chunk
    with decks has an outline section at its position.
  */
  lemma CheckWithoutIndexPanic(chunks: seq<seq<string>>, sections: seq<SlidesSection>)
    requires NonEmptyChunks(chunks)
    ensures Check(chunks, sections).verdict in {InSync, OutOfSync} <==>
      chunks != [] && forall k :: 0 <= k < |chunks| ==> ChunkSafe(k, chunks[k], sections)
  {
    CheckUpToFacts(chunks, sections, |chunks|);
  }

  /** The inner `for deck in ..deck_titles` loop: one complaint per deck with no `## deck` line in `body`. */
  method CompareDecks(decks: seq<string>, body: seq<string>, header: string) returns (missing: seq<Diagnostic>)
    ensures missing == MissingDecks(decks, body, header)
  {
    missing := [];
    for j := 0 to |decks|
      invariant missing == MissingDecks(decks[..j], body, header)
    {
      MissingDecksSnoc(decks, j, body, header);
      if "## " + decks[j] !in body {
        missing := missing + [DeckNotUnderHeader(decks[j], header)];
      }
    }
    assert decks[..|decks|] == decks;
  }

  /**
    The body of `test_cheatsheet`'s `for (idx, section)` loop: the complaints
    it prints about chunk `idx`, and the panic that stops the loop, if any.
  */
  method CheckChunk(idx: nat, section: seq<string>, sections: seq<SlidesSection>) returns (step: Progress)
    requires section != []
    ensures step == ChunkCheck(idx, section, sections)
  {
    if idx >= |Headers| {
      return Progress([], Some(HeaderIndexOutOfRange));
    }
    var expected := Headers[idx];
    var found: seq<Diagnostic> := [];
    if expected != section[0] {
      found := found + [HeaderError(expected)];
    }
    // only a header: skip the deck comparison
    if |section| == 1 {
      found := found + [MissingAllDecks(expected)];
      return Progress(found, None);
    }
    if idx >= |sections| {
      return Progress(found, Some(SectionIndexOutOfRange));
    }
    var missing := CompareDecks(sections[idx].deckTitles, section[1..], expected);
    found := found + missing;
    step := Progress(found, None);
  }

  /** `test_cheatsheet`'s comparison loop, with its `missing_files` flag and its early panics. */
  method CheckCheatsheet(chunks: seq<seq<string>>, sections: seq<SlidesSection>) returns (report: Report)
    requires NonEmptyChunks(chunks)
    ensures report == Check(chunks, sections)
  {
    if |chunks| == 0 {
      return Report([], EmptyCheatsheet);
    }
    var diagnostics: seq<Diagnostic> := [];
    var missingFiles := false;
    if |chunks| != NumHeaders {
      diagnostics := diagnostics + [MissingHeaders];
      missingFiles := true;
    }
    for idx := 0 to |chunks|
      invariant CheckUpTo(chunks, sections, idx) == Progress(diagnostics, None)
      invariant missingFiles <==> diagnostics != []
    {
      CheckNext(chunks, sections, idx, diagnostics);
      var step := CheckChunk(idx, chunks[idx], sections);
      if step.diagnostics != [] {
        missingFiles := true;
      }
      diagnostics := diagnostics + step.diagnostics;
      if step.stop.Some? {
        CheckEndsEarly(chunks, sections, idx + 1, diagnostics, step.stop.value);
        return Report(diagnostics, step.stop.value);
      }
    }
    CheckEndsInVerdict(chunks, sections, diagnostics);
    report := Report(diagnostics, if missingFiles then OutOfSync else InSync);
  }
}
