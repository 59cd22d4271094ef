/**
 * The few Python string operations the scrapers rely on, with Python's
 * semantics: `str.strip()`, `str.strip(chars)`, `"\n".join(...)`,
 * the substring test `p in s` and `s.replace(p, "")`.
 */
module PyText {

  /** The characters for which `str.isspace()` holds; `str.strip()` with no argument removes these. */
  const Whitespace: set<char> :=
    {'\t', '\n', '\U{000B}', '\U{000C}', '\r', '\U{001C}', '\U{001D}', '\U{001E}', '\U{001F}', ' ',
     '\U{0085}', '\U{00A0}', '\U{1680}', '\U{2000}', '\U{2001}', '\U{2002}', '\U{2003}', '\U{2004}',
     '\U{2005}', '\U{2006}', '\U{2007}', '\U{2008}', '\U{2009}', '\U{200A}', '\U{2028}', '\U{2029}',
     '\U{202F}', '\U{205F}', '\U{3000}'}

  /** Drops the leading run of characters in `cs`. */
  function LStrip(s: string, cs: set<char>): (r: string)
    ensures |r| <= |s| && r == s[|s| - |r|..]
    ensures forall k :: 0 <= k < |s| - |r| ==> s[k] in cs
    ensures r == [] || r[0] !in cs
  {
    if s != [] && s[0] in cs then LStrip(s[1..], cs) else s
  }

  /** Drops the trailing run of characters in `cs`. */
  function RStrip(s: string, cs: set<char>): (r: string)
    ensures |r| <= |s| && r == s[..|r|]
    ensures forall k :: |r| <= k < |s| ==> s[k] in cs
    ensures r == [] || r[|r| - 1] !in cs
  {
    if s != [] && s[|s| - 1] in cs then RStrip(s[..|s| - 1], cs) else s
  }

  /** True iff neither end of `s` is a character of `cs`. */
  predicate Trimmed(s: string, cs: set<char>) {
    s == [] || (s[0] !in cs && s[|s| - 1] !in cs)
  }

  /** `r` is the slice of `s` at offset `i`, and everything of `s` around it is in `cs`. */
  predicate CutAt(s: string, r: string, i: int, cs: set<char>) {
    && 0 <= i && i + |r| <= |s| && s[i..i + |r|] == r
    && (forall k :: 0 <= k < i ==> s[k] in cs)
    && (forall k :: i + |r| <= k < |s| ==> s[k] in cs)
  }

  /**
   * `s.strip(chars)` for the set `cs` of those characters: the part of `s`
   * left after removing every character of `cs` from both ends.
   */
  function StripChars(s: string, cs: set<char>): (r: string)
    ensures Trimmed(r, cs)
    ensures exists i :: CutAt(s, r, i, cs)
  {
    var left := LStrip(s, cs);
    var r := RStrip(left, cs);
    var i := |s| - |left|;
    assert CutAt(s, r, i, cs);
    r
  }

  /** `s.strip()`. */
  function Strip(s: string): string {
    StripChars(s, Whitespace)
  }

  /** Stripping a string that is already trimmed changes nothing. */
  lemma StripTrimmed(s: string, cs: set<char>)
    requires Trimmed(s, cs)
    ensures StripChars(s, cs) == s
  {
    if s != [] {
      assert LStrip(s, cs) == s;
      assert RStrip(s, cs) == s;
    }
  }

  /** What `LStrip` does to a concatenation. */
  lemma {:induction false} LStripAppend(s: string, t: string, cs: set<char>)
    ensures LStrip(s + t, cs) == if LStrip(s, cs) == [] then LStrip(t, cs) else LStrip(s, cs) + t
  {
    if s != [] && s[0] in cs {
      assert (s + t)[1..] == s[1..] + t;
      LStripAppend(s[1..], t, cs);
    } else if s == [] {
      assert s + t == t;
    }
  }

  /** A stripped character appended at the end does not change the result of stripping. */
  lemma StripDropsTrailing(s: string, c: char, cs: set<char>)
    requires c in cs
    ensures StripChars(s + [c], cs) == StripChars(s, cs)
  {
    LStripAppend(s, [c], cs);
    var left := LStrip(s, cs);
    if left != [] {
      assert LStrip(s + [c], cs) == left + [c];
      assert (left + [c])[..|left|] == left;
      assert RStrip(left + [c], cs) == RStrip(left, cs);
    } else {
      assert LStrip([c], cs) == [] by {
        assert [c][1..] == [];
      }
      assert LStrip(s + [c], cs) == [];
    }
  }

  /** Python's `"\n".join(xs)`. */
  function JoinLines(xs: seq<string>): string {
    if |xs| == 0 then "" else if |xs| == 1 then xs[0] else xs[0] + "\n" + JoinLines(xs[1..])
  }

  /** Joining a concatenation puts one newline between the two joined halves. */
  lemma {:induction false} JoinAppend(a: seq<string>, b: seq<string>)
    requires a != [] && b != []
    ensures JoinLines(a + b) == JoinLines(a) + "\n" + JoinLines(b)
  {
    if |a| == 1 {
      assert (a + b)[1..] == b;
    } else {
      assert (a + b)[1..] == a[1..] + b;
      JoinAppend(a[1..], b);
    }
  }

  predicate StartsWith(s: string, p: string) {
    |p| <= |s| && s[..|p|] == p
  }

  /** `p` occurs in `s` at offset `i`. */
  predicate OccursAt(s: string, p: string, i: int) {
    0 <= i && i + |p| <= |s| && s[i..i + |p|] == p
  }

  /** Python's `p in s` for strings. */
  predicate Contains(s: string, p: string)
    decreases |s|
  {
    StartsWith(s, p) || (s != [] && Contains(s[1..], p))
  }

  /** An occurrence of `p` at any offset makes `p in s` true. */
  lemma {:induction false} ContainsAt(s: string, p: string, i: int)
    requires OccursAt(s, p, i)
    ensures Contains(s, p)
  {
    if i > 0 {
      assert s[1..][i - 1..i - 1 + |p|] == s[i..i + |p|];
      assert OccursAt(s[1..], p, i - 1);
      ContainsAt(s[1..], p, i - 1);
    }
  }

  /** `s.replace(p, "")`: every occurrence found scanning left to right is removed. */
  function RemoveAll(s: string, p: string): (r: string)
    requires p != []
    ensures |r| <= |s|
    ensures !Contains(s, p) ==> r == s
    decreases |s|
  {
    if |s| < |p| then s
    else if StartsWith(s, p) then RemoveAll(s[|p|..], p)
    else [s[0]] + RemoveAll(s[1..], p)
  }

  /** Every string containing "https://" contains "//". */
  lemma HttpsContainsSlashes(s: string)
    requires Contains(s, "https://")
    ensures Contains(s, "//")
  {
    ContainsWitness(s, "https://");
    var i :| OccursAt(s, "https://", i);
    assert s[i + 6..i + 8] == s[i..i + 8][6..8] == "//";
    assert OccursAt(s, "//", i + 6);
    ContainsAt(s, "//", i + 6);
  }

  /** `Contains` has a witness offset. */
  lemma {:induction false} ContainsWitness(s: string, p: string)
    requires Contains(s, p)
    ensures exists i :: OccursAt(s, p, i)
  {
    if StartsWith(s, p) {
      assert OccursAt(s, p, 0);
    } else {
      ContainsWitness(s[1..], p);
      var j :| OccursAt(s[1..], p, j);
      assert s[j + 1..j + 1 + |p|] == s[1..][j..j + |p|];
      assert OccursAt(s, p, j + 1);
    }
  }
}
