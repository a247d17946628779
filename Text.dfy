/**
 * The Python `str` operations the pipeline relies on, stated over `seq<char>`:
 * `strip()`, `upper()`, `lower()`, `title()`, `replace(old, new)`, `startswith`,
 * the substring test `p in s`, `split(sep)` and `sep.join(parts)`.
 * Case mapping covers the ASCII letters only; whitespace is Python's full
 * `str.isspace()` set.
 */
module Text {
  import opened Wrappers

  // ---------------------------------------------------------------------------
  // Whitespace and strip()
  // ---------------------------------------------------------------------------

  /** The characters for which Python's `str.isspace()` holds. */
  predicate IsSpace(c: char)
  {
    || c == ' '
    || ('\t' <= c <= '\r')
    || ('\U{1C}' <= c <= '\U{1F}')
    || c == '\U{85}' || c == '\U{A0}' || c == '\U{1680}'
    || ('\U{2000}' <= c <= '\U{200A}')
    || c == '\U{2028}' || c == '\U{2029}' || c == '\U{202F}' || c == '\U{205F}' || c == '\U{3000}'
  }

  /** Every character of `s` is whitespace (true of the empty string). */
  predicate AllSpace(s: string)
  {
    forall i :: 0 <= i < |s| ==> IsSpace(s[i])
  }

  /** Neither end of `s` is whitespace: what `strip()` leaves behind. */
  predicate Stripped(s: string)
  {
    s == [] || (!IsSpace(s[0]) && !IsSpace(s[|s| - 1]))
  }

  /** Python `s.lstrip()`: the suffix left after dropping leading whitespace. */
  function LStrip(s: string): (r: string)
    ensures |r| <= |s| && r == s[|s| - |r|..]
    ensures AllSpace(s[..|s| - |r|])
    ensures r == [] || !IsSpace(r[0])
    decreases |s|
  {
    if s != [] && IsSpace(s[0]) then
      var r := LStrip(s[1..]);
      var k := |s| - |r|;
      assert s[1..][k - 1..] == s[k..];
      assert forall i :: 0 < i < k ==> s[..k][i] == s[1..][..k - 1][i - 1];
      r
    else s
  }

  /** Python `s.rstrip()`: the prefix left after dropping trailing whitespace. */
  function RStrip(s: string): (r: string)
    ensures |r| <= |s| && r == s[..|r|]
    ensures AllSpace(s[|r|..])
    ensures r == [] || !IsSpace(r[|r| - 1])
    decreases |s|
  {
    if s != [] && IsSpace(s[|s| - 1]) then
      var init := s[..|s| - 1];
      var r := RStrip(init);
      assert s[..|r|] == init[..|r|];
      assert s[|r|..] == init[|r|..] + [s[|s| - 1]];
      r
    else s
  }

  /** Python `s.strip()`. */
  function Strip(s: string): (r: string)
    ensures Stripped(r)
    ensures |r| <= |s|
    decreases |s|
  {
    if s != [] && IsSpace(s[0]) then Strip(s[1..]) else RStrip(s)
  }

  /** `strip()` is `lstrip()` followed by `rstrip()`. */
  lemma {:induction false} StripBothEnds(s: string)
    ensures Strip(s) == RStrip(LStrip(s))
    decreases |s|
  {
    if s != [] && IsSpace(s[0]) {
      StripBothEnds(s[1..]);
    }
  }

  /** `strip()` leaves a string alone exactly when neither end is whitespace. */
  lemma StripFixed(s: string)
    ensures Strip(s) == s <==> Stripped(s)
  {
    if Stripped(s) && s != [] {
      assert LStrip(s) == s;
      assert RStrip(s) == s;
    }
  }

  /** `strip()` is empty exactly for the all-whitespace strings. */
  lemma StripEmpty(s: string)
    ensures Strip(s) == [] <==> AllSpace(s)
  {
  }

  /**
   * A prefix of `s` whose two ends are not whitespace survives `strip()`:
   * neither the leading nor the trailing pass can reach into it.
   */
  lemma StripKeepsPrefix(s: string, p: string)
    requires StartsWith(s, p) && p != [] && Stripped(p)
    ensures StartsWith(Strip(s), p)
  {
    assert s[0] == p[0];
    assert LStrip(s) == s;
    var r := RStrip(s);
    assert |r| >= |p| by {
      assert !IsSpace(s[|p| - 1]);
    }
    assert r[..|p|] == s[..|p|];
  }

  /** `strip()` only removes characters: whatever it keeps occurs in the input. */
  lemma {:induction false} StripKeepsNoNewChars(s: string)
    ensures forall c :: c in Strip(s) ==> c in s
    decreases |s|
  {
    if s != [] && IsSpace(s[0]) {
      StripKeepsNoNewChars(s[1..]);
      assert forall c :: c in s[1..] ==> c in s;
    } else {
      var r := RStrip(s);
      assert forall i :: 0 <= i < |r| ==> r[i] == s[i];
    }
  }

  // ---------------------------------------------------------------------------
  // Case mapping (ASCII), replace(), title()
  // ---------------------------------------------------------------------------

  predicate IsAsciiLetter(c: char)
  {
    ('a' <= c <= 'z') || ('A' <= c <= 'Z')
  }

  function UpperChar(c: char): char
  {
    if 'a' <= c <= 'z' then (c as int - 32) as char else c
  }

  function LowerChar(c: char): char
  {
    if 'A' <= c <= 'Z' then (c as int + 32) as char else c
  }

  /** Python `s.upper()` on ASCII letters. */
  function Upper(s: string): (r: string)
    ensures |r| == |s|
  {
    if s == [] then [] else [UpperChar(s[0])] + Upper(s[1..])
  }

  /** `upper()` maps each character on its own. */
  lemma {:induction false} UpperAt(s: string, i: nat)
    requires i < |s|
    ensures Upper(s)[i] == UpperChar(s[i])
    decreases |s|
  {
    if i > 0 {
      UpperAt(s[1..], i - 1);
    }
  }

  /** Python `s.lower()` on ASCII letters. */
  function Lower(s: string): string
  {
    seq(|s|, i requires 0 <= i < |s| => LowerChar(s[i]))
  }

  /** Python `s.replace(from, to)` for one-character `from` and `to`. */
  function ReplaceChar(s: string, from: char, to: char): string
  {
    seq(|s|, i requires 0 <= i < |s| => if s[i] == from then to else s[i])
  }

  /**
   * Python `s.title()`: a cased character that follows a cased character is
   * lower-cased, any other cased character is upper-cased, and uncased
   * characters are kept.
   */
  function Title(s: string): string
  {
    seq(|s|, i requires 0 <= i < |s| =>
      if i > 0 && IsAsciiLetter(s[i - 1]) then LowerChar(s[i]) else UpperChar(s[i]))
  }

  /** One position of `title()`: the same letter up to case, and a non-letter unchanged. */
  lemma TitleAt(s: string, i: nat)
    requires i < |s|
    ensures |Title(s)| == |s|
    ensures LowerChar(Title(s)[i]) == LowerChar(s[i])
    ensures !IsAsciiLetter(s[i]) ==> Title(s)[i] == s[i]
  {
  }

  /**
   * `title()` only changes the case of letters: the result has the same
   * length and the same lower-case form, every letter that opens a word is
   * upper case, and every letter that follows a letter is lower case.
   */
  lemma TitleOnlyRecases(s: string)
    ensures |Title(s)| == |s|
    ensures Lower(Title(s)) == Lower(s)
    ensures forall i :: 0 <= i < |s| && !IsAsciiLetter(s[i]) ==> Title(s)[i] == s[i]
    ensures forall i :: 0 <= i < |s| && 'a' <= s[i] <= 'z' && (i == 0 || !IsAsciiLetter(s[i - 1])) ==>
              'A' <= Title(s)[i] <= 'Z'
    ensures forall i :: 0 < i < |s| && IsAsciiLetter(s[i - 1]) && 'A' <= s[i] <= 'Z' ==>
              'a' <= Title(s)[i] <= 'z'
  {
    var t := Title(s);
    forall i | 0 <= i < |s|
      ensures LowerChar(t[i]) == LowerChar(s[i])
    {
    }
  }

  // ---------------------------------------------------------------------------
  // startswith, the substring test, find
  // ---------------------------------------------------------------------------

  /** Python `s.startswith(p)`. */
  predicate StartsWith(s: string, p: string)
  {
    |p| <= |s| && s[..|p|] == p
  }

  /** `p` occurs in `s` at position `i`. */
  predicate OccursAt(s: string, p: string, i: nat)
  {
    i + |p| <= |s| && s[i..i + |p|] == p
  }

  /** The position of the first occurrence of `p` in `s`, as `str.find` gives it. */
  function Find(s: string, p: string): (r: Option<nat>)
    ensures r.Some? ==> OccursAt(s, p, r.value)
    ensures r.Some? ==> forall j :: 0 <= j < r.value ==> !OccursAt(s, p, j)
    ensures r.None? ==> forall j: nat :: !OccursAt(s, p, j)
    decreases |s|
  {
    if |s| < |p| then None
    else if s[..|p|] == p then Some(0)
    else
      var rest := Find(s[1..], p);
      ShiftOccurrence(s, p);
      match rest
      case None => None
      case Some(i) => Some(i + 1)
  }

  /** An occurrence in the tail of `s` is an occurrence in `s`, one position later. */
  lemma ShiftOccurrence(s: string, p: string)
    requires s != []
    ensures forall j: nat :: 1 <= j ==> (OccursAt(s, p, j) <==> OccursAt(s[1..], p, j - 1))
  {
    forall j: nat | 1 <= j
      ensures OccursAt(s, p, j) <==> OccursAt(s[1..], p, j - 1)
    {
      if j + |p| <= |s| {
        assert s[1..][j - 1..j - 1 + |p|] == s[j..j + |p|];
      }
    }
  }

  /** Python `p in s`. */
  predicate Contains(s: string, p: string)
  {
    Find(s, p).Some?
  }

  /** An occurrence inside a prefix of `s` is an occurrence in `s`. */
  lemma OccursInPrefix(s: string, n: nat, p: string, j: nat)
    requires n <= |s| && OccursAt(s[..n], p, j)
    ensures OccursAt(s, p, j)
  {
    assert s[..n][j..j + |p|] == s[j..j + |p|];
  }

  /** For a one-character pattern the substring test is membership. */
  lemma ContainsChar(s: string, c: char)
    ensures Contains(s, [c]) <==> c in s
  {
    if c in s {
      var i :| 0 <= i < |s| && s[i] == c;
      assert OccursAt(s, [c], i);
    }
    if Contains(s, [c]) {
      var i := Find(s, [c]).value;
      assert s[i..i + 1] == [c];
      assert s[i] == c;
    }
  }

  /** Python `any(p in s for p in patterns)`. */
  predicate ContainsAny(s: string, patterns: seq<string>)
  {
    exists k :: 0 <= k < |patterns| && Contains(s, patterns[k])
  }

  // ---------------------------------------------------------------------------
  // split(sep) and sep.join(parts)
  // ---------------------------------------------------------------------------

  /**
   * Python `s.split(sep)` for a non-empty separator: the pieces between
   * successive non-overlapping occurrences of `sep`, scanning left to right.
   * There is always at least one piece, and there are two or more exactly
   * when `sep in s`; no piece contains `sep`.
   */
  function Split(s: string, sep: string): (r: seq<string>)
    requires sep != []
    ensures |r| >= 1
    ensures |r| >= 2 <==> Contains(s, sep)
    ensures forall k :: 0 <= k < |r| ==> !Contains(r[k], sep)
    decreases |s|
  {
    match Find(s, sep)
    case None => [s]
    case Some(i) =>
      var head := s[..i];
      assert !Contains(head, sep) by {
        if Find(head, sep).Some? {
          OccursInPrefix(s, i, sep, Find(head, sep).value);
        }
      }
      [head] + Split(s[i + |sep|..], sep)
  }

  /** Python `sep.join(parts)`. */
  function Join(parts: seq<string>, sep: string): string
  {
    if |parts| == 0 then ""
    else if |parts| == 1 then parts[0]
    else parts[0] + sep + Join(parts[1..], sep)
  }

  /**
   * Joining non-empty pieces that have no surrounding whitespace gives a
   * string without surrounding whitespace, starting with the first piece's
   * first character.
   */
  lemma {:induction false} JoinStripped(parts: seq<string>, sep: string)
    requires parts != []
    requires forall k :: 0 <= k < |parts| ==> parts[k] != [] && Stripped(parts[k])
    ensures Join(parts, sep) != [] && Join(parts, sep)[0] == parts[0][0]
    ensures Stripped(Join(parts, sep))
    decreases |parts|
  {
    if |parts| >= 2 {
      var rest := Join(parts[1..], sep);
      JoinStripped(parts[1..], sep);
      assert Join(parts, sep) == parts[0] + sep + rest;
      assert Join(parts, sep)[|Join(parts, sep)| - 1] == rest[|rest| - 1];
    }
  }

  /** Joining the pieces of a split with the same separator gives the string back. */
  lemma {:induction false} JoinSplit(s: string, sep: string)
    requires sep != []
    ensures Join(Split(s, sep), sep) == s
    decreases |s|
  {
    var f := Find(s, sep);
    if f.Some? {
      var i := f.value;
      var rest := s[i + |sep|..];
      JoinSplit(rest, sep);
      var pieces := Split(rest, sep);
      var all := [s[..i]] + pieces;
      assert Split(s, sep) == all;
      assert all[1..] == pieces;
      assert Join(all, sep) == s[..i] + sep + Join(pieces, sep);
      assert s == s[..i] + sep + rest;
    }
  }

  /**
   * Splitting a join on a one-character separator gives the parts back, when
   * no part contains the separator.
   */
  lemma {:induction false} SplitJoin(parts: seq<string>, sep: string)
    requires |sep| == 1 && parts != []
    requires forall k :: 0 <= k < |parts| ==> !Contains(parts[k], sep)
    ensures Split(Join(parts, sep), sep) == parts
    decreases |parts|
  {
    var s := Join(parts, sep);
    if |parts| == 1 {
    } else {
      var rest := Join(parts[1..], sep);
      var h := parts[0];
      assert s == h + sep + rest;
      assert OccursAt(s, sep, |h|);
      forall j: nat | j < |h|
        ensures !OccursAt(s, sep, j)
      {
        assert s[j..j + 1] == h[j..j + 1];
        assert !OccursAt(h, sep, j);
      }
      assert Find(s, sep) == Some(|h|);
      assert s[..|h|] == h;
      assert s[|h| + |sep|..] == rest;
      SplitJoin(parts[1..], sep);
    }
  }

  /**
   * The first piece of a split is the longest prefix before the first
   * occurrence of the separator: it is followed either by the separator or
   * by the end of the string.
   */
  lemma SplitHead(s: string, sep: string)
    requires sep != []
    ensures StartsWith(s, Split(s, sep)[0])
    ensures |Split(s, sep)[0]| == |s| || OccursAt(s, sep, |Split(s, sep)[0]|)
    ensures Find(s, sep).Some? ==> |Split(s, sep)[0]| == Find(s, sep).value
    ensures Find(s, sep).None? ==> |Split(s, sep)[0]| == |s|
  {
  }

  /** An occurrence that ends within the first `n` characters is an occurrence in that prefix. */
  lemma OccursInLongerPrefix(s: string, n: nat, p: string, j: nat)
    requires n <= |s|
    ensures j + |p| <= n && OccursAt(s, p, j) ==> OccursAt(s[..n], p, j)
  {
    if j + |p| <= n {
      assert s[..n][j..j + |p|] == s[j..j + |p|];
    }
  }

  /** A string without an occurrence of `p` has none in any prefix either. */
  lemma NoOccurrenceInPrefix(s: string, n: nat, p: string)
    requires n <= |s| && !Contains(s, p)
    ensures !Contains(s[..n], p)
  {
    if Contains(s[..n], p) {
      OccursInPrefix(s, n, p, Find(s[..n], p).value);
    }
  }

  /**
   * Python `s.split(open)[1].split(close)[0]`: the text after the first
   * `open`, cut at the next `open` or `close`.
   */
  function Between(s: string, open: string, close: string): string
    requires open != [] && close != [] && Contains(s, open)
  {
    Split(Split(s, open)[1], close)[0]
  }

  /**
   * What `Between` picks: a prefix of the text after the first `open` that
   * holds neither marker and ends where that text ends or where one of the
   * two markers begins.
   */
  lemma BetweenMarkers(s: string, open: string, close: string)
    requires open != [] && close != [] && Contains(s, open)
    ensures StartsWith(AfterFirst(s, open), Between(s, open, close))
    ensures !Contains(Between(s, open, close), open)
    ensures !Contains(Between(s, open, close), close)
    ensures var t, mid := AfterFirst(s, open), Between(s, open, close);
            |mid| == |t| || OccursAt(t, open, |mid|) || OccursAt(t, close, |mid|)
    ensures var t, mid := AfterFirst(s, open), Between(s, open, close);
            forall j :: 0 <= j < |mid| ==> !OccursAt(t, open, j)
    ensures var t, mid := AfterFirst(s, open), Between(s, open, close);
            forall j :: 0 <= j < |mid| && OccursAt(t, close, j) ==>
              Find(t, open).Some? && Find(t, open).value < j + |close|
  {
    var t := AfterFirst(s, open);
    var piece := Split(t, open)[0];
    assert Split(s, open)[1] == piece by {
      SplitSecond(s, open);
    }
    PieceBeforeMarkers(t, open, close);
  }

  /** The text after the first occurrence of `sep`. */
  function AfterFirst(s: string, sep: string): string
    requires Contains(s, sep)
  {
    s[Find(s, sep).value + |sep|..]
  }

  /** The second piece of a split is the first piece of what follows the first separator. */
  lemma SplitSecond(s: string, sep: string)
    requires sep != [] && Contains(s, sep)
    ensures Split(s, sep)[1] == Split(AfterFirst(s, sep), sep)[0]
  {
  }

  /**
   * Cutting `t` at `open` and then at `close` leaves a prefix free of both,
   * ending at a marker or at the end; no `open` begins before the cut, and a
   * `close` that begins before it runs into the first `open`.
   */
  lemma PieceBeforeMarkers(t: string, open: string, close: string)
    requires open != [] && close != []
    ensures var mid := Split(Split(t, open)[0], close)[0];
            && StartsWith(t, mid)
            && !Contains(mid, open) && !Contains(mid, close)
            && (|mid| == |t| || OccursAt(t, open, |mid|) || OccursAt(t, close, |mid|))
    ensures var mid := Split(Split(t, open)[0], close)[0];
            forall j :: 0 <= j < |mid| ==> !OccursAt(t, open, j)
    ensures var mid := Split(Split(t, open)[0], close)[0];
            forall j :: 0 <= j < |mid| && OccursAt(t, close, j) ==>
              Find(t, open).Some? && Find(t, open).value < j + |close|
  {
    var piece := Split(t, open)[0];
    SplitHead(t, open);
    var mid := Split(piece, close)[0];
    SplitHead(piece, close);
    assert !Contains(piece, open);
    NoOccurrenceInPrefix(piece, |mid|, open);
    assert piece[..|mid|] == mid;
    assert t[..|mid|] == mid;
    if |mid| < |piece| {
      assert OccursAt(piece, close, |mid|);
      OccursInPrefix(t, |piece|, close, |mid|);
    }
    forall j | 0 <= j < |mid| && OccursAt(t, close, j)
      ensures Find(t, open).Some? && Find(t, open).value < j + |close|
    {
      assert !OccursAt(piece, close, j);
      OccursInLongerPrefix(t, |piece|, close, j);
    }
  }

  // ---------------------------------------------------------------------------
  // Subsequences
  // ---------------------------------------------------------------------------

  /** `a` is `b` with some elements left out, the rest in their original order. */
  predicate IsSubseq<T(==)>(a: seq<T>, b: seq<T>)
    decreases |b|
  {
    if a == [] then true
    else if b == [] then false
    else (a[|a| - 1] == b[|b| - 1] && IsSubseq(a[..|a| - 1], b[..|b| - 1]))
         || IsSubseq(a, b[..|b| - 1])
  }

  /** A subsequence of a suffix is a subsequence of the whole. */
  lemma {:induction false} SubseqOfSuffix<T>(a: seq<T>, c: seq<T>, b: seq<T>)
    requires IsSubseq(a, b)
    ensures IsSubseq(a, c + b)
    decreases |b|
  {
    if a != [] {
      var cb := c + b;
      assert cb[..|cb| - 1] == c + b[..|b| - 1];
      if a[|a| - 1] == b[|b| - 1] && IsSubseq(a[..|a| - 1], b[..|b| - 1]) {
        SubseqOfSuffix(a[..|a| - 1], c, b[..|b| - 1]);
      } else {
        SubseqOfSuffix(a, c, b[..|b| - 1]);
      }
    }
  }

  /** Every element of a subsequence is an element of the whole. */
  lemma {:induction false} SubseqMembers<T>(a: seq<T>, b: seq<T>)
    requires IsSubseq(a, b)
    ensures forall x :: x in a ==> x in b
    decreases |b|
  {
    if a != [] {
      if a[|a| - 1] == b[|b| - 1] && IsSubseq(a[..|a| - 1], b[..|b| - 1]) {
        SubseqMembers(a[..|a| - 1], b[..|b| - 1]);
        assert a == a[..|a| - 1] + [a[|a| - 1]];
        assert b == b[..|b| - 1] + [b[|b| - 1]];
      } else {
        SubseqMembers(a, b[..|b| - 1]);
        assert b == b[..|b| - 1] + [b[|b| - 1]];
      }
    }
  }

  /** Extending the longer sequence at the back keeps a subsequence one. */
  lemma SubseqExtend<T>(a: seq<T>, b: seq<T>, x: T)
    requires IsSubseq(a, b)
    ensures IsSubseq(a, b + [x])
  {
    assert (b + [x])[..|b|] == b;
  }

  /** Extending both sequences by the same element keeps a subsequence one. */
  lemma SubseqAppendBoth<T>(a: seq<T>, b: seq<T>, x: T)
    requires IsSubseq(a, b)
    ensures IsSubseq(a + [x], b + [x])
  {
    assert (a + [x])[..|a|] == a;
    assert (b + [x])[..|b|] == b;
  }
}
