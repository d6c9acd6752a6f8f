/**
 * The JavaScript string built-ins the core relies on, written out over
 * `seq<char>`: truthiness of an optional string, `includes`/`indexOf`,
 * `slice`, `split` with a non-empty separator, `trim`, the `\s` class of
 * regular expressions, and the ASCII case folding of a `/i` pattern.
 */
module JsString {
  import opened Wrappers

  /** `if (s)` on a `string | undefined`: present and not the empty string. */
  predicate IsTruthy(s: Option<string>) {
    s.Some? && s.value != ""
  }

  /** `p` occurs in `s` starting at index `i`. */
  predicate OccursAt(s: string, i: nat, p: string) {
    i + |p| <= |s| && s[i..i + |p|] == p
  }

  /** `s.indexOf(p, from)`: the first index at or after `from` where `p` occurs. */
  function IndexOfFrom(s: string, p: string, from: nat): (r: Option<nat>)
    ensures r.Some? ==> from <= r.value && OccursAt(s, r.value, p)
    ensures forall k :: from <= k && (r.None? || k < r.value) ==> !OccursAt(s, k, p)
    decreases |s| - from
  {
    if from + |p| > |s| then None
    else if OccursAt(s, from, p) then Some(from)
    else IndexOfFrom(s, p, from + 1)
  }

  /** `s.includes(p)`. */
  predicate Includes(s: string, p: string) {
    IndexOfFrom(s, p, 0).Some?
  }

  lemma IncludesIff(s: string, p: string)
    ensures Includes(s, p) <==> exists k :: OccursAt(s, k, p)
  {
    if Includes(s, p) {
      assert OccursAt(s, IndexOfFrom(s, p, 0).value, p);
    }
  }

  /** An occurrence inside a prefix `s[..n]` is an occurrence in `s`. */
  lemma OccursInPrefix(s: string, n: nat, m: nat, p: string)
    requires n <= |s|
    ensures OccursAt(s[..n], m, p) ==> OccursAt(s, m, p)
  {
    if OccursAt(s[..n], m, p) {
      assert s[..n][m..m + |p|] == s[m..m + |p|];
    }
  }

  /** An occurrence inside the slice `s[lo..hi]` is an occurrence in `s`, shifted by `lo`. */
  lemma OccursInSlice(s: string, lo: nat, hi: nat, m: nat, p: string)
    requires lo <= hi <= |s| && m + |p| <= hi - lo
    ensures OccursAt(s[lo..hi], m, p) <==> OccursAt(s, lo + m, p)
  {
    var a, b := s[lo..hi][m..m + |p|], s[lo + m..lo + m + |p|];
    forall k | 0 <= k < |p| ensures a[k] == b[k] {}
    assert a == b;
  }

  /** The same for occurrences that ignore case. */
  lemma OccursIgnoringCaseInSlice(s: string, lo: nat, hi: nat, m: nat, p: string)
    requires lo <= hi <= |s| && m + |p| <= hi - lo
    ensures OccursAtIgnoringCase(s[lo..hi], m, p) <==> OccursAtIgnoringCase(s, lo + m, p)
  {
    var t := s[lo..hi];
    forall j | m <= j < m + |p| ensures t[j] == s[lo + j] {}
  }

  /** `s.slice(n)` for a non-negative `n`. */
  function SliceFrom(s: string, n: nat): (r: string)
    ensures |r| == if n <= |s| then |s| - n else 0
    ensures forall k :: 0 <= k < |r| ==> r[k] == s[n + k]
  {
    if n <= |s| then s[n..] else ""
  }

  /** `s.split(sep)` for a non-empty separator. */
  function Split(s: string, sep: string): (parts: seq<string>)
    requires sep != ""
    ensures |parts| >= 1
    ensures Includes(s, sep) ==> |parts| >= 2
    decreases |s|
  {
    match IndexOfFrom(s, sep, 0)
    case None => [s]
    case Some(k) => [s[..k]] + Split(s[k + |sep|..], sep)
  }

  /** No piece of a split holds the separator. */
  lemma {:induction false} SplitPartsLackSeparator(s: string, sep: string)
    requires sep != ""
    ensures forall i :: 0 <= i < |Split(s, sep)| ==> !Includes(Split(s, sep)[i], sep)
    decreases |s|
  {
    match IndexOfFrom(s, sep, 0)
    case None =>
    case Some(k) =>
      var head, rest := s[..k], s[k + |sep|..];
      assert !Includes(head, sep) by {
        forall m ensures !OccursAt(head, m, sep) {
          OccursInPrefix(s, k, m, sep);
        }
        IncludesIff(head, sep);
      }
      SplitPartsLackSeparator(rest, sep);
      assert Split(s, sep) == [head] + Split(rest, sep);
  }

  /**
   * The first piece of a split is the text before the first occurrence of
   * the separator (all of `s` when there is none), and the later pieces are
   * the split of what follows that occurrence.
   */
  lemma SplitHead(s: string, sep: string)
    requires sep != ""
    ensures var h := Split(s, sep)[0];
      && |h| <= |s| && h == s[..|h|]
      && (|h| == |s| || OccursAt(s, |h|, sep))
      && (forall j :: 0 <= j < |h| ==> !OccursAt(s, j, sep))
    ensures |Split(s, sep)| >= 2 ==>
      && |Split(s, sep)[0]| + |sep| <= |s|
      && Split(s, sep)[1..] == Split(s[|Split(s, sep)[0]| + |sep|..], sep)
  {
    match IndexOfFrom(s, sep, 0)
    case None =>
    case Some(k) =>
      assert Split(s, sep) == [s[..k]] + Split(s[k + |sep|..], sep);
  }

  /**
   * When the first occurrence of `sep` is at `k`, the second piece of the
   * split is the first piece of the split of what follows that occurrence.
   */
  lemma SplitSecondPiece(s: string, sep: string, k: nat)
    requires sep != ""
    requires OccursAt(s, k, sep) && forall j :: 0 <= j < k ==> !OccursAt(s, j, sep)
    ensures k + |sep| <= |s| && |Split(s, sep)| >= 2
    ensures Split(s, sep)[1] == Split(s[k + |sep|..], sep)[0]
  {
    IncludesIff(s, sep);
    SplitHead(s, sep);
    var parts := Split(s, sep);
    assert |parts[0]| == k;
    var rest := s[k + |sep|..];
    assert parts[1..] == Split(rest, sep);
    assert parts[1] == parts[1..][0];
  }

  /** The first piece of a split on one character is the text before its first occurrence. */
  lemma SplitCharHead(s: string, c: char)
    ensures var h := Split(s, [c])[0];
      && |h| <= |s| && h == s[..|h|] && c !in h
      && (|h| == |s| || s[|h|] == c)
  {
    SplitHead(s, [c]);
    var h := Split(s, [c])[0];
    forall j | 0 <= j < |h| ensures h[j] != c {
      assert !OccursAt(s, j, [c]);
      assert s[j..j + 1] == [s[j]];
    }
    if |h| < |s| {
      assert OccursAt(s, |h|, [c]);
      assert s[|h|..|h| + 1] == [s[|h|]];
    }
  }

  /** `parts.join(sep)`. */
  function Join(parts: seq<string>, sep: string): string
    requires |parts| >= 1
  {
    if |parts| == 1 then parts[0] else parts[0] + sep + Join(parts[1..], sep)
  }

  /** Splitting and joining again gives back the original string. */
  lemma {:induction false} JoinSplit(s: string, sep: string)
    requires sep != ""
    ensures Join(Split(s, sep), sep) == s
    decreases |s|
  {
    match IndexOfFrom(s, sep, 0)
    case None =>
    case Some(k) =>
      var rest := s[k + |sep|..];
      JoinSplit(rest, sep);
      assert s[k..k + |sep|] == sep;
      calc {
        Join(Split(s, sep), sep);
        s[..k] + sep + Join(Split(rest, sep), sep);
        s[..k] + s[k..k + |sep|] + s[k + |sep|..];
        { assert s == s[..k] + s[k..k + |sep|] + s[k + |sep|..]; }
        s;
      }
  }

  /** The first index of the character `c` in `a + [c] + b` is `|a|` when `c` is not in `a`. */
  lemma FirstOccurrenceOfChar(a: string, c: char, b: string)
    requires c !in a
    ensures IndexOfFrom(a + [c] + b, [c], 0) == Some(|a|)
  {
    var s := a + [c] + b;
    assert s[|a|..|a| + 1] == [c];
    assert OccursAt(s, |a|, [c]);
    var r := IndexOfFrom(s, [c], 0);
    assert r.Some? && r.value <= |a|;
    var k := r.value;
    assert s[k..k + 1] == [c];
    assert s[k] == c;
    assert forall j :: 0 <= j < |a| ==> s[j] == a[j];
  }

  lemma ConsAppend<T>(x: T, a: seq<T>, b: seq<T>)
    ensures [x] + (a + b) == [x] + a + b
  {
  }

  /** Splitting `a + [c] + b` on `c` when `a` lacks `c`: `a` first, then the pieces of `b`. */
  lemma SplitAtFirstChar(a: string, c: char, b: string)
    requires c !in a
    ensures Split(a + [c] + b, [c]) == [a] + Split(b, [c])
  {
    var s := a + [c] + b;
    FirstOccurrenceOfChar(a, c, b);
    assert s[..|a|] == a;
    assert s[|a| + 1..] == b;
  }

  /**
   * Splitting on a one-character separator inverts `Join` on every part but
   * the last when those parts do not hold that character; the last part is
   * split on its own.
   */
  lemma {:induction false} SplitJoinChar(parts: seq<string>, c: char)
    requires |parts| >= 1
    requires forall i :: 0 <= i < |parts| - 1 ==> c !in parts[i]
    ensures Split(Join(parts, [c]), [c]) == parts[..|parts| - 1] + Split(parts[|parts| - 1], [c])
    decreases |parts|
  {
    if |parts| == 1 {
      assert Join(parts, [c]) == parts[0];
      assert parts[..0] == [];
    } else {
      var head, tail := parts[0], parts[1..];
      var rest := Join(tail, [c]);
      assert Join(parts, [c]) == head + [c] + rest;
      forall i | 0 <= i < |tail| - 1 ensures c !in tail[i] {
        assert tail[i] == parts[i + 1];
      }
      var last := parts[|parts| - 1];
      assert tail[|tail| - 1] == last;
      assert parts[..|parts| - 1] == [head] + tail[..|tail| - 1];
      calc {
        Split(Join(parts, [c]), [c]);
        Split(head + [c] + rest, [c]);
        { SplitAtFirstChar(head, c, rest); }
        [head] + Split(rest, [c]);
        { SplitJoinChar(tail, c); }
        [head] + (tail[..|tail| - 1] + Split(last, [c]));
        { ConsAppend(head, tail[..|tail| - 1], Split(last, [c])); }
        parts[..|parts| - 1] + Split(last, [c]);
      }
    }
  }

  /** The line terminators of ECMAScript: LF, CR, LINE SEPARATOR and PARAGRAPH SEPARATOR. */
  predicate IsLineTerminator(c: char) {
    c == '\n' || c == '\r' || c == '\U{2028}' || c == '\U{2029}'
  }

  /**
   * ECMAScript white space or a line terminator: the characters `trim`
   * removes and `\s` matches (tab, vertical tab, form feed, space,
   * no-break space, byte order mark and the space separators of Unicode).
   */
  predicate IsJsWhitespace(c: char) {
    || IsLineTerminator(c)
    || c == '\t' || c == '\U{000B}' || c == '\U{000C}' || c == ' '
    || c == '\U{00A0}' || c == '\U{FEFF}' || c == '\U{1680}'
    || ('\U{2000}' <= c <= '\U{200A}')
    || c == '\U{202F}' || c == '\U{205F}' || c == '\U{3000}'
  }

  /** `s.trimStart()`: drops the leading white space and nothing else. */
  function TrimStart(s: string): (r: string)
    ensures |r| <= |s| && r == s[|s| - |r|..]
    ensures r != [] ==> !IsJsWhitespace(r[0])
    ensures forall k :: 0 <= k < |s| - |r| ==> IsJsWhitespace(s[k])
    decreases |s|
  {
    if s != [] && IsJsWhitespace(s[0]) then TrimStart(s[1..]) else s
  }

  /** `s.trimEnd()`: drops the trailing white space and nothing else. */
  function TrimEnd(s: string): (r: string)
    ensures |r| <= |s| && r == s[..|r|]
    ensures r != [] ==> !IsJsWhitespace(r[|r| - 1])
    ensures forall k :: |r| <= k < |s| ==> IsJsWhitespace(s[k])
    decreases |s|
  {
    if s != [] && IsJsWhitespace(s[|s| - 1]) then TrimEnd(s[..|s| - 1]) else s
  }

  /** The length of the leading white space: the index of the first other character, or the length. */
  function LeadingSpace(s: string): (n: nat)
    ensures n <= |s|
    ensures forall k :: 0 <= k < n ==> IsJsWhitespace(s[k])
    ensures n < |s| ==> !IsJsWhitespace(s[n])
  {
    |s| - |TrimStart(s)|
  }

  /** A prefix of a suffix is a slice. */
  lemma SliceOfSuffix(s: string, i: nat, n: nat)
    requires i <= |s| && n <= |s| - i
    ensures s[i..][..n] == s[i..i + n]
  {
  }

  /** White space after `n` in the suffix `s[i..]` is white space after `i + n` in `s`. */
  lemma SuffixSpace(s: string, i: nat, n: nat)
    requires i <= |s| && n <= |s| - i
    requires forall k :: n <= k < |s| - i ==> IsJsWhitespace(s[i..][k])
    ensures forall k :: i + n <= k < |s| ==> IsJsWhitespace(s[k])
  {
    forall k | i + n <= k < |s| ensures IsJsWhitespace(s[k]) {
      assert s[k] == s[i..][k - i];
    }
  }

  /**
   * `s.trim()`: the slice that starts after the leading white space and
   * leaves only white space after it, and that neither starts nor ends
   * with white space.
   */
  function Trim(s: string): (r: string)
    ensures |r| <= |s|
    ensures r != [] ==> !IsJsWhitespace(r[0]) && !IsJsWhitespace(r[|r| - 1])
    ensures var i := LeadingSpace(s);
      && i + |r| <= |s| && r == s[i..i + |r|]
      && forall k :: i + |r| <= k < |s| ==> IsJsWhitespace(s[k])
  {
    var t := TrimStart(s);
    var u := TrimEnd(t);
    SliceOfSuffix(s, |s| - |t|, |u|);
    SuffixSpace(s, |s| - |t|, |u|);
    u
  }

  /** Without leading white space, `trim` only drops the trailing white space. */
  lemma TrimWithoutLeadingSpace(s: string)
    requires s == [] || !IsJsWhitespace(s[0])
    ensures Trim(s) == TrimEnd(s)
  {
    assert TrimStart(s) == s;
  }

  /** `trimEnd` keeps a prefix that does not end with white space. */
  lemma TrimEndKeepsPrefix(s: string, p: string)
    requires OccursAt(s, 0, p) && (p == [] || !IsJsWhitespace(p[|p| - 1]))
    ensures OccursAt(TrimEnd(s), 0, p)
  {
    var u := TrimEnd(s);
    if p != [] {
      assert s[|p| - 1] == p[|p| - 1];
    }
    assert |p| <= |u|;
    OccursInSlice(s, 0, |u|, 0, p);
    assert s[0..|u|] == u;
  }

  /** The upper-case ASCII letters mapped to lower case; every other character unchanged. */
  function LowerAscii(c: char): char {
    if 'A' <= c <= 'Z' then (c as int + 32) as char else c
  }

  /**
   * `p` occurs at `i` under the `/i` flag of a regular expression without
   * the `u` flag. For an ASCII pattern this is ASCII case folding: the
   * canonicalisation of ECMAScript never maps a non-ASCII character onto
   * an ASCII one.
   */
  predicate OccursAtIgnoringCase(s: string, i: nat, p: string) {
    i + |p| <= |s| && forall k :: 0 <= k < |p| ==> LowerAscii(s[i + k]) == LowerAscii(p[k])
  }
}
