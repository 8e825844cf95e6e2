/**
 * Character-level helpers shared by the engine and the transcript:
 * whitespace, Kotlin's `trim()` / `isBlank()` and Swift's trimming of a
 * transcript, and substring containment.
 */
module Text {

  /**
   * Kotlin's `Char.isWhitespace()` on the JVM: the controls tab to carriage
   * return and U+001C..U+001F, and every space, line and paragraph separator
   * of Unicode (categories Zs, Zl, Zp), the no-break spaces included.
   */
  predicate IsWhitespace(c: char)
  {
    || '\t' <= c <= '\r'
    || '\U{1C}' <= c <= ' '
    || c == '\U{A0}' || c == '\U{1680}'
    || '\U{2000}' <= c <= '\U{200A}'
    || c == '\U{2028}' || c == '\U{2029}' || c == '\U{202F}' || c == '\U{205F}'
    || c == '\U{3000}'
  }

  /** Unicode spaces are whitespace too: an ideographic space alone is blank and trims away. */
  lemma UnicodeSpaceIsBlank()
    ensures IsBlank("\U{3000}") && Trim("\U{3000}") == []
    ensures IsBlank("\U{A0}") && Trim("\U{A0}") == []
  {
    BlankIffTrimsToEmpty("\U{3000}");
    BlankIffTrimsToEmpty("\U{A0}");
  }

  /** `isBlank()`: empty, or whitespace only. */
  predicate IsBlank(s: string)
  {
    forall k :: 0 <= k < |s| ==> IsWhitespace(s[k])
  }

  /** Drops leading whitespace: the result is the suffix that starts at the first non-whitespace. */
  function TrimStart(s: string): (r: string)
    ensures |r| <= |s| && r == s[|s| - |r|..]
    ensures forall k :: 0 <= k < |s| - |r| ==> IsWhitespace(s[k])
    ensures r == [] || !IsWhitespace(r[0])
    decreases |s|
  {
    if |s| > 0 && IsWhitespace(s[0]) then TrimStart(s[1..]) else s
  }

  /** Drops trailing whitespace: the result is the prefix that ends at the last non-whitespace. */
  function TrimEnd(s: string): (r: string)
    ensures |r| <= |s| && r == s[..|r|]
    ensures forall k :: |r| <= k < |s| ==> IsWhitespace(s[k])
    ensures r == [] || !IsWhitespace(r[|r| - 1])
    decreases |s|
  {
    if |s| > 0 && IsWhitespace(s[|s| - 1]) then TrimEnd(s[..|s| - 1]) else s
  }

  /**
   * `r` is `s` with its leading and trailing whitespace cut off, `r` starting
   * at offset `i` of `s`.
   */
  ghost predicate IsTrimOf(s: string, r: string, i: int)
  {
    && 0 <= i <= i + |r| <= |s|
    && r == s[i..i + |r|]
    && IsBlank(s[..i])
    && IsBlank(s[i + |r|..])
    && (r == [] || (!IsWhitespace(r[0]) && !IsWhitespace(r[|r| - 1])))
  }

  /** `trim()`: the slice of `s` between its leading and its trailing whitespace. */
  function Trim(s: string): (r: string)
    ensures exists i :: IsTrimOf(s, r, i)
  {
    var t := TrimStart(s);
    var r := TrimEnd(t);
    var i := |s| - |t|;
    BlankSlices(s, t, r, i);
    r
  }

  /** The pieces `TrimStart` and `TrimEnd` cut off are blank, so their result is a trim of `s`. */
  lemma BlankSlices(s: string, t: string, r: string, i: int)
    requires |t| <= |s| && t == s[|s| - |t|..] && i == |s| - |t|
    requires forall k :: 0 <= k < i ==> IsWhitespace(s[k])
    requires |r| <= |t| && r == t[..|r|]
    requires forall k :: |r| <= k < |t| ==> IsWhitespace(t[k])
    requires r == [] || (!IsWhitespace(r[0]) && !IsWhitespace(r[|r| - 1]))
    ensures IsTrimOf(s, r, i)
  {
    var front, back := s[..i], s[i + |r|..];
    assert forall k :: 0 <= k < |front| ==> front[k] == s[k];
    assert forall k :: 0 <= k < |back| ==> back[k] == t[|r| + k];
    assert r == s[i..i + |r|];
  }

  /** A word behind one leading space trims to the word. */
  lemma TrimLeadingSpace(w: string)
    requires w != [] && !IsWhitespace(w[0]) && !IsWhitespace(w[|w| - 1])
    ensures Trim(" " + w) == w
  {
    assert (" " + w)[1..] == w;
  }

  /** `s.contains(t)`: `t` is a prefix of `s` or of one of its suffixes. */
  predicate Contains(s: string, t: string)
  {
    t <= s || (|s| > 0 && Contains(s[1..], t))
  }

  /** A string is blank exactly when trimming leaves nothing. */
  lemma BlankIffTrimsToEmpty(s: string)
    ensures IsBlank(s) <==> Trim(s) == []
  {
    var t := TrimStart(s);
    if Trim(s) == [] {
      assert TrimEnd(t) == [];
    }
  }

  /** Trimming is idempotent. */
  lemma TrimIdempotent(s: string)
    ensures Trim(Trim(s)) == Trim(s)
  {
    var r := Trim(s);
    if r != [] {
      assert TrimStart(r) == r;
      assert TrimEnd(r) == r;
    }
  }

  /** A string cannot contain a pattern whose first character it lacks. */
  lemma {:induction false} MissingFirstCharNotContained(s: string, t: string)
    requires t != [] && t[0] !in s
    ensures !Contains(s, t)
  {
    if s != [] {
      assert t[0] !in s[1..];
      MissingFirstCharNotContained(s[1..], t);
    }
  }

  /** `t` occurs in `s` starting at offset `i`. */
  predicate OccursAtIndex(s: string, t: string, i: nat)
  {
    i + |t| <= |s| && s[i..i + |t|] == t
  }

  /** An occurrence at a known offset is an occurrence. */
  lemma {:induction false} OccursAt(s: string, t: string, i: nat)
    requires OccursAtIndex(s, t, i)
    ensures Contains(s, t)
    decreases i
  {
    if i == 0 {
      assert t <= s;
    } else {
      assert s[1..][i - 1..i - 1 + |t|] == t;
      OccursAt(s[1..], t, i - 1);
    }
  }

  /** What `Contains` finds occurs at some offset. */
  lemma {:induction false} ContainedOccursSomewhere(s: string, t: string)
    requires Contains(s, t)
    ensures exists i: nat :: OccursAtIndex(s, t, i)
  {
    if t <= s {
      assert OccursAtIndex(s, t, 0);
    } else {
      ContainedOccursSomewhere(s[1..], t);
      var i: nat :| OccursAtIndex(s[1..], t, i);
      assert s[i + 1..i + 1 + |t|] == s[1..][i..i + |t|];
      assert OccursAtIndex(s, t, i + 1);
    }
  }

  /** `Contains` is exactly "occurs at some offset" (`String.contains`). */
  lemma ContainsIffOccurs(s: string, t: string)
    ensures Contains(s, t) <==> exists i: nat :: OccursAtIndex(s, t, i)
  {
    if Contains(s, t) {
      ContainedOccursSomewhere(s, t);
    }
    if exists i: nat :: OccursAtIndex(s, t, i) {
      var i: nat :| OccursAtIndex(s, t, i);
      OccursAt(s, t, i);
    }
  }

  /** Whatever contains a text contains that text without its first character. */
  lemma ContainsDropFirst(s: string, t: string)
    requires t != [] && Contains(s, t)
    ensures Contains(s, t[1..])
  {
    ContainedOccursSomewhere(s, t);
    var i: nat :| OccursAtIndex(s, t, i);
    assert s[i + 1..i + 1 + |t[1..]|] == t[1..];
    OccursAt(s, t[1..], i + 1);
  }

  /** Every text contains itself. */
  lemma ContainsItself(s: string)
    ensures Contains(s, s)
  {
  }

  /** A text behind one leading space is still contained. */
  lemma ContainsAfterSpace(w: string)
    ensures Contains(" " + w, w)
  {
    assert (" " + w)[1..] == w;
    ContainsItself(w);
  }

  /** What occurs in `a` occurs in `a + b`. */
  lemma {:induction false} ContainsInPrefix(a: string, b: string, t: string)
    requires Contains(a, t)
    ensures Contains(a + b, t)
  {
    if !(t <= a) {
      assert (a + b)[1..] == a[1..] + b;
      ContainsInPrefix(a[1..], b, t);
    }
  }

  /** The path of `File(dir, name)`: the directory, a separator, the name. */
  function PathJoin(dir: string, name: string): (path: string)
    ensures |path| == |dir| + 1 + |name| && path[..|dir|] == dir && path[|dir| + 1..] == name
  {
    dir + "/" + name
  }

  /** Two names in one directory give the same path only if they are the same name. */
  lemma PathJoinInjective(dir: string, a: string, b: string)
    ensures PathJoin(dir, a) == PathJoin(dir, b) <==> a == b
  {
    if PathJoin(dir, a) == PathJoin(dir, b) {
      assert a == PathJoin(dir, a)[|dir| + 1..];
    }
  }
}
