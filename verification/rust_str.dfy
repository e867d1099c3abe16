/**
  The few operations of Rust's `str` that the cheatsheet tool relies on
  (`starts_with`, `ends_with`, `find`, `rfind`, `lines`, `trim`), on
  `string` = `seq<char>`.  Each is specified by what it promises, so the
  cheatsheet model can reason about them without unfolding them.
*/
module RustStr {
  import opened Wrappers

  /** `p` occurs in `s` starting at index `i`. */
  predicate IsAt(s: string, p: string, i: int) {
    0 <= i && i + |p| <= |s| && s[i..i + |p|] == p
  }

  predicate Contains(s: string, p: string) {
    exists i :: 0 <= i <= |s| && IsAt(s, p, i)
  }

  predicate StartsWith(s: string, p: string) {
    |p| <= |s| && s[..|p|] == p
  }

  predicate EndsWith(s: string, p: string) {
    |p| <= |s| && s[|s| - |p|..] == p
  }

  /** First occurrence of `p` at an index `>= k`. */
  function FindFrom(s: string, p: string, k: nat): (r: Option<nat>)
    decreases |s| - k
    ensures r.Some? ==> k <= r.value && IsAt(s, p, r.value)
    ensures r.Some? ==> forall j :: k <= j < r.value ==> !IsAt(s, p, j)
    ensures r.None? ==> forall j :: k <= j ==> !IsAt(s, p, j)
  {
    if k + |p| > |s| then None
    else if IsAt(s, p, k) then Some(k)
    else FindFrom(s, p, k + 1)
  }

  /** `str::find`: the index of the first occurrence of `p`. */
  function Find(s: string, p: string): (r: Option<nat>)
    ensures r.None? <==> !Contains(s, p)
    ensures r.Some? ==> IsAt(s, p, r.value) && forall j :: 0 <= j < r.value ==> !IsAt(s, p, j)
  {
    FindFrom(s, p, 0)
  }

  /** Last occurrence of `p` at an index `<= k`. */
  function RFindUpTo(s: string, p: string, k: nat): (r: Option<nat>)
    ensures r.Some? ==> r.value <= k && IsAt(s, p, r.value)
    ensures r.Some? ==> forall j :: r.value < j <= k ==> !IsAt(s, p, j)
    ensures r.None? ==> forall j :: j <= k ==> !IsAt(s, p, j)
  {
    if IsAt(s, p, k) then Some(k)
    else if k == 0 then None
    else RFindUpTo(s, p, k - 1)
  }

  /** `str::rfind`: the index of the last occurrence of `p`. */
  function RFind(s: string, p: string): (r: Option<nat>)
    ensures r.None? <==> !Contains(s, p)
    ensures r.Some? ==> IsAt(s, p, r.value) && forall j :: r.value < j ==> !IsAt(s, p, j)
  {
    if |p| > |s| then None else RFindUpTo(s, p, |s| - |p|)
  }

  /** A single character occurs at `i` exactly when `s[i]` is that character. */
  lemma IsAtChar(s: string, c: char, i: int)
    requires 0 <= i < |s|
    ensures IsAt(s, [c], i) <==> s[i] == c
  {
    assert s[i..i + 1] == [s[i]];
  }

  /** `str::find` of a single character: its first position, if it occurs. */
  lemma FindChar(s: string, c: char)
    ensures Find(s, [c]).Some? <==> c in s
    ensures Find(s, [c]).Some? ==> var i := Find(s, [c]).value; i < |s| && s[i] == c && c !in s[..i]
  {
    forall j | 0 <= j < |s| ensures IsAt(s, [c], j) <==> s[j] == c { IsAtChar(s, c, j); }
  }

  /** `str::rfind` of a single character: its last position, if it occurs. */
  lemma RFindChar(s: string, c: char)
    ensures RFind(s, [c]).Some? <==> c in s
    ensures RFind(s, [c]).Some? ==> var i := RFind(s, [c]).value; i < |s| && s[i] == c && c !in s[i + 1..]
  {
    forall j | 0 <= j < |s| ensures IsAt(s, [c], j) <==> s[j] == c { IsAtChar(s, c, j); }
  }

  /** Drops the `'\r'` of a `"\r\n"` line ending. */
  function StripCr(l: string): string {
    if l != [] && l[|l| - 1] == '\r' then l[..|l| - 1] else l
  }

  /**
    `str::lines`: split at `'\n'`, a `'\r'` just before a `'\n'` belongs to
    the line ending, and a final line ending yields no extra empty line.
  */
  function Lines(s: string): (r: seq<string>)
    decreases |s|
    ensures forall k :: 0 <= k < |r| ==> '\n' !in r[k]
  {
    if s == [] then []
    else match Find(s, "\n")
      case None =>
        assert forall j :: 0 <= j < |s| ==> s[j] != '\n' by {
          forall j | 0 <= j < |s| ensures s[j] != '\n' { IsAtChar(s, '\n', j); }
        }
        [s]
      case Some(i) =>
        assert forall j :: 0 <= j < i ==> s[j] != '\n' by {
          forall j | 0 <= j < i ensures s[j] != '\n' { IsAtChar(s, '\n', j); }
        }
        [StripCr(s[..i])] + Lines(s[i + 1..])
  }

  /** A line that `Lines` gives back unchanged when it is followed by `'\n'`. */
  predicate IsPlainLine(l: string) {
    '\n' !in l && (l == [] || l[|l| - 1] != '\r')
  }

  /** Every line followed by `'\n'`, as a `String` buffer built by `push_str`. */
  function Unlines(ls: seq<string>): string {
    if ls == [] then "" else Unlines(ls[..|ls| - 1]) + ls[|ls| - 1] + "\n"
  }

  lemma {:induction false} UnlinesAppend(a: seq<string>, b: seq<string>)
    ensures Unlines(a + b) == Unlines(a) + Unlines(b)
    decreases |b|
  {
    if b == [] {
      assert a + b == a;
    } else {
      var b' := b[..|b| - 1];
      assert (a + b)[..|a + b| - 1] == a + b';
      UnlinesAppend(a, b');
    }
  }

  /** The first `'\n'` of `l + "\n" + rest` is the one after `l`. */
  lemma FindNewlineAfter(l: string, rest: string)
    requires '\n' !in l
    ensures Find(l + "\n" + rest, "\n") == Some(|l|)
  {
    var s := l + "\n" + rest;
    IsAtChar(s, '\n', |l|);
    forall j | 0 <= j < |l| ensures !IsAt(s, "\n", j) {
      IsAtChar(s, '\n', j);
      assert s[j] == l[j];
    }
  }

  /** Splitting the text of `Unlines` gives the lines back. */
  lemma {:induction false} LinesOfUnlines(ls: seq<string>)
    requires forall k :: 0 <= k < |ls| ==> IsPlainLine(ls[k])
    ensures Lines(Unlines(ls)) == ls
    decreases |ls|
  {
    if ls != [] {
      var rest := ls[1..];
      UnlinesAppend([ls[0]], rest);
      assert [ls[0]] + rest == ls;
      assert Unlines([ls[0]]) == ls[0] + "\n" by {
        assert [ls[0]][..0] == [];
      }
      var s := ls[0] + "\n" + Unlines(rest);
      assert Unlines(ls) == s;
      FindNewlineAfter(ls[0], Unlines(rest));
      assert s[..|ls[0]|] == ls[0];
      assert s[|ls[0]| + 1..] == Unlines(rest);
      LinesOfUnlines(rest);
    }
  }

  /** Rust's `char::is_whitespace`: the Unicode White_Space property. */
  predicate IsWhitespace(c: char) {
    ('\t' <= c <= '\r') || c == ' ' || c == '\U{85}' || c == '\U{A0}' || c == '\U{1680}'
    || ('\U{2000}' <= c <= '\U{200A}') || c == '\U{2028}' || c == '\U{2029}'
    || c == '\U{202F}' || c == '\U{205F}' || c == '\U{3000}'
  }

  function TrimStart(s: string): (r: string)
    ensures |r| <= |s| && r == s[|s| - |r|..]
    ensures forall i :: 0 <= i < |s| - |r| ==> IsWhitespace(s[i])
    ensures r == [] || !IsWhitespace(r[0])
  {
    if s != [] && IsWhitespace(s[0]) then
      var r := TrimStart(s[1..]);
      assert s[1..][|s| - 1 - |r|..] == s[|s| - |r|..];
      assert forall i :: 1 <= i < |s| - |r| ==> s[1..][i - 1] == s[i];
      r
    else s
  }

  function TrimEnd(s: string): (r: string)
    ensures |r| <= |s| && r == s[..|r|]
    ensures forall i :: |r| <= i < |s| ==> IsWhitespace(s[i])
    ensures r == [] || !IsWhitespace(r[|r| - 1])
  {
    if s != [] && IsWhitespace(s[|s| - 1]) then
      var r := TrimEnd(s[..|s| - 1]);
      assert s[..|s| - 1][..|r|] == s[..|r|];
      assert forall i :: |r| <= i < |s| - 1 ==> s[..|s| - 1][i] == s[i];
      r
    else s
  }

  /** Neither end is whitespace. */
  predicate IsTrimmed(s: string) {
    s == [] || (!IsWhitespace(s[0]) && !IsWhitespace(s[|s| - 1]))
  }

  /** `str::trim`: the longest middle part of `s` with no whitespace at either end. */
  function Trim(s: string): (r: string)
    ensures IsTrimmed(r)
    ensures Contains(s, r)
  {
    var t := TrimStart(s);
    var r := TrimEnd(t);
    assert IsAt(s, r, |s| - |t|);
    r
  }

  /** `str::trim` is `trim_start` followed by `trim_end`. */
  lemma TrimBothEnds(s: string)
    ensures Trim(s) == TrimEnd(TrimStart(s))
  {
  }

  /** `str::trim` keeps one slice of `s`: the part starting where `trim_start` starts. */
  lemma TrimIsSlice(s: string)
    ensures var a, r := |s| - |TrimStart(s)|, Trim(s); a + |r| <= |s| && r == s[a..a + |r|]
  {
    TrimBothEnds(s);
    var t := TrimStart(s);
    var r := TrimEnd(t);
    assert r == t[..|r|];
  }

  /** Every character of `s` is whitespace. */
  predicate AllWhitespace(s: string) {
    forall i :: 0 <= i < |s| ==> IsWhitespace(s[i])
  }

  /** Everything after the kept slice is whitespace. */
  lemma TrimDropsTrailingWhitespace(s: string)
    ensures |s| - |TrimStart(s)| + |Trim(s)| <= |s|
    ensures AllWhitespace(s[|s| - |TrimStart(s)| + |Trim(s)|..])
  {
    TrimBothEnds(s);
    var t := TrimStart(s);
    var r := TrimEnd(t);
    assert s[|s| - |t| + |r|..] == t[|r|..];
    WhitespaceTail(t, |r|);
  }

  /** A run of whitespace at the end of `t`, taken as a slice. */
  lemma WhitespaceTail(t: string, n: nat)
    requires n <= |t|
    requires forall i :: n <= i < |t| ==> IsWhitespace(t[i])
    ensures AllWhitespace(t[n..])
  {
    forall i | 0 <= i < |t| - n ensures IsWhitespace(t[n..][i]) {
      assert t[n..][i] == t[n + i];
    }
  }
}
