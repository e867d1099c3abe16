/**
  The grouping loop that `focus_regions` and `test_cheatsheet` both run over
  the lines they keep (xtask/src/tasks.rs): every kept line is pushed onto
  `current_section`, and a line starting with `"# "` first closes a non-empty
  `current_section`.  `Chunks` is that loop as a left fold; the two methods
  that run it are proved equal to it.
*/
module Chunking {
  import opened RustStr

  /** A line that opens a new chunk. */
  predicate IsHeading(line: string) {
    StartsWith(line, "# ")
  }

  /** `result` and `current_section` of the loop. */
  datatype Scan = Scan(done: seq<seq<string>>, current: seq<string>)

  /** One iteration of the loop on a kept line. */
  function ChunkStep(st: Scan, line: string): Scan {
    if IsHeading(line) && st.current != [] then Scan(st.done + [st.current], [line])
    else Scan(st.done, st.current + [line])
  }

  function ScanFrom(st: Scan, lines: seq<string>): Scan {
    if lines == [] then st
    else ChunkStep(ScanFrom(st, lines[..|lines| - 1]), lines[|lines| - 1])
  }

  lemma ScanSnoc(st: Scan, lines: seq<string>, line: string)
    ensures ScanFrom(st, lines + [line]) == ChunkStep(ScanFrom(st, lines), line)
  {
    assert (lines + [line])[..|lines|] == lines;
  }

  /** The final `if !current_section.is_empty() { result.push(current_section) }`. */
  function Finish(st: Scan): seq<seq<string>> {
    if st.current != [] then st.done + [st.current] else st.done
  }

  /** The chunks the loop returns for the kept lines `lines`. */
  function Chunks(lines: seq<string>): seq<seq<string>> {
    Finish(ScanFrom(Scan([], []), lines))
  }

  /** All chunks joined, in order. */
  function Flatten(cs: seq<seq<string>>): seq<string> {
    if cs == [] then [] else Flatten(cs[..|cs| - 1]) + cs[|cs| - 1]
  }

  /**
    The shape of a correct chunking: no chunk is empty, every chunk but the
    first opens with a heading, and no heading appears after a chunk's first line.
  */
  predicate WellChunked(cs: seq<seq<string>>) {
    && (forall k :: 0 <= k < |cs| ==> cs[k] != [])
    && (forall k :: 0 < k < |cs| ==> IsHeading(cs[k][0]))
    && (forall k, j :: 0 <= k < |cs| && 0 < j < |cs[k]| ==> !IsHeading(cs[k][j]))
  }

  lemma FlattenSnoc(cs: seq<seq<string>>, c: seq<string>)
    ensures Flatten(cs + [c]) == Flatten(cs) + c
  {
    assert (cs + [c])[..|cs|] == cs;
  }

  /** What the loop keeps true of `result` and `current_section`. */
  predicate ScanInvariant(lines: seq<string>, st: Scan) {
    && Flatten(st.done) + st.current == lines
    && WellChunked(st.done)
    && (lines != [] ==> st.current != [])
    && (st.done != [] ==> IsHeading(st.current[0]))
    && (forall j :: 0 < j < |st.current| ==> !IsHeading(st.current[j]))
  }

  lemma {:induction false} ScanKeepsInvariant(lines: seq<string>)
    ensures ScanInvariant(lines, ScanFrom(Scan([], []), lines))
    decreases |lines|
  {
    if lines != [] {
      var prefix, line := lines[..|lines| - 1], lines[|lines| - 1];
      assert prefix + [line] == lines;
      ScanKeepsInvariant(prefix);
      ScanStepKeepsInvariant(prefix, ScanFrom(Scan([], []), prefix), line);
    }
  }

  /** One iteration of the loop keeps `ScanInvariant`. */
  lemma ScanStepKeepsInvariant(lines: seq<string>, st: Scan, line: string)
    requires ScanInvariant(lines, st)
    ensures ScanInvariant(lines + [line], ChunkStep(st, line))
  {
    if IsHeading(line) && st.current != [] {
      CloseChunkKeepsInvariant(lines, st, line);
    } else {
      ExtendChunkKeepsInvariant(lines, st, line);
    }
  }

  /** A heading after a non-empty chunk closes that chunk and opens one holding just the heading. */
  lemma CloseChunkKeepsInvariant(lines: seq<string>, st: Scan, line: string)
    requires ScanInvariant(lines, st)
    requires IsHeading(line) && st.current != []
    ensures ScanInvariant(lines + [line], Scan(st.done + [st.current], [line]))
  {
    var done := st.done + [st.current];
    FlattenSnoc(st.done, st.current);
    assert Flatten(done) + [line] == lines + [line];
    assert forall k :: 0 <= k < |st.done| ==> done[k] == st.done[k];
    assert done[|st.done|] == st.current;
    assert forall k :: 0 <= k < |done| ==> done[k] != [];
    assert forall k :: 0 < k < |done| ==> IsHeading(done[k][0]);
    assert forall k, j :: 0 <= k < |done| && 0 < j < |done[k]| ==> !IsHeading(done[k][j]);
  }

  /** Any other line joins the open chunk. */
  lemma ExtendChunkKeepsInvariant(lines: seq<string>, st: Scan, line: string)
    requires ScanInvariant(lines, st)
    requires !(IsHeading(line) && st.current != [])
    ensures ScanInvariant(lines + [line], Scan(st.done, st.current + [line]))
  {
    var cur := st.current + [line];
    assert Flatten(st.done) + cur == lines + [line];
    assert forall j :: 0 <= j < |st.current| ==> cur[j] == st.current[j];
    assert cur[|st.current|] == line;
    assert st.done != [] ==> st.current != [] && IsHeading(cur[0]);
    assert forall j :: 0 < j < |cur| ==> !IsHeading(cur[j]);
  }

  /** The chunks are a correct chunking of the lines: joined, they give the lines back. */
  lemma ChunksAreChunking(lines: seq<string>)
    ensures WellChunked(Chunks(lines))
    ensures Flatten(Chunks(lines)) == lines
  {
    ScanKeepsInvariant(lines);
    var st := ScanFrom(Scan([], []), lines);
    if st.current != [] {
      FlattenSnoc(st.done, st.current);
    } else {
      assert st.current + [] == st.current;
    }
  }

  /** Feeding one well-formed chunk to the loop closes the current one and leaves the new one open. */
  lemma {:induction false} ScanOneChunk(st: Scan, c: seq<string>)
    requires c != []
    requires forall j :: 0 < j < |c| ==> !IsHeading(c[j])
    requires st.current != [] ==> IsHeading(c[0])
    ensures ScanFrom(st, c) == Scan(if st.current != [] then st.done + [st.current] else st.done, c)
    decreases |c|
  {
    if |c| > 1 {
      var prefix := c[..|c| - 1];
      assert prefix[0] == c[0];
      ScanOneChunk(st, prefix);
      assert prefix + [c[|c| - 1]] == c;
    } else {
      assert ScanFrom(st, c[..0]) == st;
    }
  }

  lemma {:induction false} ScanFromAppend(st: Scan, a: seq<string>, b: seq<string>)
    ensures ScanFrom(st, a + b) == ScanFrom(ScanFrom(st, a), b)
    decreases |b|
  {
    if b == [] {
      assert a + b == a;
    } else {
      assert (a + b)[..|a + b| - 1] == a + b[..|b| - 1];
      ScanFromAppend(st, a, b[..|b| - 1]);
    }
  }

  lemma {:induction false} ScanOfFlatten(cs: seq<seq<string>>)
    requires cs != [] && WellChunked(cs)
    ensures ScanFrom(Scan([], []), Flatten(cs)) == Scan(cs[..|cs| - 1], cs[|cs| - 1])
    decreases |cs|
  {
    var init, c := cs[..|cs| - 1], cs[|cs| - 1];
    assert init + [c] == cs;
    if init == [] {
      assert Flatten(cs) == c;
      ScanOneChunk(Scan([], []), c);
    } else {
      assert WellChunked(init);
      ScanOfFlatten(init);
      ScanFromAppend(Scan([], []), Flatten(init), c);
      var st := Scan(init[..|init| - 1], init[|init| - 1]);
      ScanOneChunk(st, c);
      assert init[..|init| - 1] + [init[|init| - 1]] == init;
    }
  }

  /**
    Chunking is the inverse of joining: a well-formed chunk list is exactly
    what the loop rebuilds from its joined lines.
  */
  lemma ChunksOfFlatten(cs: seq<seq<string>>)
    requires WellChunked(cs)
    ensures Chunks(Flatten(cs)) == cs
  {
    if cs != [] {
      ScanOfFlatten(cs);
      assert cs[..|cs| - 1] + [cs[|cs| - 1]] == cs;
    }
  }

  /** Every line of every chunk is one of the joined lines. */
  lemma {:induction false} FlattenMember(cs: seq<seq<string>>, k: nat, j: nat)
    requires k < |cs| && j < |cs[k]|
    ensures cs[k][j] in Flatten(cs)
    decreases |cs|
  {
    if k < |cs| - 1 {
      FlattenMember(cs[..|cs| - 1], k, j);
    }
  }
}
