/** The JavaScript string operations the templates rely on:
    `split` on a one-character separator, `join`, `filter(Boolean)` on a
    list of strings, and `trim`. A Dafny `char` is a Unicode scalar value,
    while a JavaScript string is a sequence of UTF-16 code units, so a
    character outside the Basic Multilingual Plane is one `char` here and
    two code units there. No operation modelled here tells the two apart:
    none measures a length or an index that is shown, every separator and
    white-space character is a single code unit, and the slug rule turns
    both halves of a surrogate pair into the same run of hyphens that the
    one `char` becomes. */
module Text {

  /** Number of occurrences of `c` in `s`. */
  function Count(s: string, c: char): nat
  {
    if |s| == 0 then 0 else (if s[0] == c then 1 else 0) + Count(s[1..], c)
  }

  /** `s` with every occurrence of `c` deleted. */
  function Remove(s: string, c: char): string
  {
    if |s| == 0 then "" else (if s[0] == c then "" else [s[0]]) + Remove(s[1..], c)
  }

  /** Concatenation of all pieces, with no separator. */
  function Concat(xs: seq<string>): string
  {
    if |xs| == 0 then "" else xs[0] + Concat(xs[1..])
  }

  /** `xs.join(sep)`. */
  function Join(xs: seq<string>, sep: char): string
  {
    if |xs| == 0 then ""
    else if |xs| == 1 then xs[0]
    else xs[0] + [sep] + Join(xs[1..], sep)
  }

  /** `s.split(sep)`: always at least one piece, one more piece than there
      are separators, and no piece holds the separator (joining the pieces
      back gives `s`: `JoinSplit`). */
  function Split(s: string, sep: char): (r: seq<string>)
    ensures |r| == Count(s, sep) + 1
    ensures forall i :: 0 <= i < |r| ==> sep !in r[i]
  {
    if |s| == 0 then [""]
    else
      var rest := Split(s[1..], sep);
      if s[0] == sep then
        assert ([""] + rest)[1..] == rest;
        [""] + rest
      else
        var r := [[s[0]] + rest[0]] + rest[1..];
        assert r[1..] == rest[1..];
        r
  }

  /** `xs.filter(Boolean)` on strings: drops exactly the empty strings and
      keeps the others in order. */
  function NonEmpty(xs: seq<string>): (r: seq<string>)
    ensures |r| <= |xs|
    ensures forall i :: 0 <= i < |r| ==> r[i] != ""
    ensures forall x :: x in r <==> x in xs && x != ""
  {
    if |xs| == 0 then []
    else (if xs[0] == "" then [] else [xs[0]]) + NonEmpty(xs[1..])
  }

  /** `s.split("\n").filter(Boolean)`: the bullet list of a multi-line field.
      Items are never empty and never hold a line break; an empty input
      gives no items. Whitespace-only lines are kept. */
  function SplitLines(s: string): (r: seq<string>)
    ensures forall i :: 0 <= i < |r| ==> r[i] != "" && '\n' !in r[i]
    ensures s == "" ==> r == []
  {
    var parts := Split(s, '\n');
    assert forall x :: x in parts ==> '\n' !in x;
    NonEmpty(parts)
  }

  /** The characters JavaScript's `String.prototype.trim` removes:
      white space (TAB, VT, FF, SP, NBSP, ZWNBSP and the Unicode space
      separators) and line terminators (LF, CR, LS, PS). */
  predicate IsWhitespace(c: char)
  {
    c as int in WhitespaceCodes
  }

  /** The code points of those characters. */
  const WhitespaceCodes: set<int> := {
    0x09, 0x0A, 0x0B, 0x0C, 0x0D, 0x20, 0xA0, 0x1680,
    0x2000, 0x2001, 0x2002, 0x2003, 0x2004, 0x2005, 0x2006, 0x2007,
    0x2008, 0x2009, 0x200A,
    0x2028, 0x2029, 0x202F, 0x205F, 0x3000, 0xFEFF
  }

  /** Length of the white-space run `s` starts with. */
  function LeadingWhitespace(s: string): (k: nat)
    ensures k <= |s|
    ensures forall i :: 0 <= i < k ==> IsWhitespace(s[i])
    ensures k < |s| ==> !IsWhitespace(s[k])
  {
    if |s| == 0 || !IsWhitespace(s[0]) then 0
    else
      var k := 1 + LeadingWhitespace(s[1..]);
      assert forall i :: 1 <= i < k ==> s[i] == s[1..][i - 1];
      k
  }

  /** Length of the white-space run `s` ends with. */
  function TrailingWhitespace(s: string): (m: nat)
    ensures m <= |s|
    ensures forall i :: |s| - m <= i < |s| ==> IsWhitespace(s[i])
    ensures m < |s| ==> !IsWhitespace(s[|s| - m - 1])
  {
    if |s| == 0 || !IsWhitespace(s[|s| - 1]) then 0
    else
      var m := 1 + TrailingWhitespace(s[..|s| - 1]);
      assert forall i :: |s| - m <= i < |s| - 1 ==> s[i] == s[..|s| - 1][i];
      m
  }

  /** `s.trim()`: the infix of `s` left after removing white space from both
      ends; it neither starts nor ends with white space, and everything
      removed is white space. */
  function Trim(s: string): (r: string)
    ensures r == "" || (!IsWhitespace(r[0]) && !IsWhitespace(r[|r| - 1]))
    ensures var k := LeadingWhitespace(s);
            && k + |r| <= |s| && r == s[k..k + |r|]
            && (forall i :: 0 <= i < k ==> IsWhitespace(s[i]))
            && (forall i :: k + |r| <= i < |s| ==> IsWhitespace(s[i]))
  {
    var k := LeadingWhitespace(s);
    var t := s[k..];
    var m := TrailingWhitespace(t);
    var r := t[..|t| - m];
    assert r == s[k..k + |r|];
    assert forall i :: k + |r| <= i < |s| ==> s[i] == t[i - k];
    r
  }

  /** `s.split(sep).map((x) => x.trim())`: one tag per piece, so empty
      tags are kept; every tag is trimmed. */
  function SplitTrim(s: string, sep: char): (r: seq<string>)
    ensures |r| == Count(s, sep) + 1
    ensures forall i :: 0 <= i < |r| ==> sep !in r[i]
    ensures forall i :: 0 <= i < |r| ==>
              r[i] == "" || (!IsWhitespace(r[i][0]) && !IsWhitespace(r[i][|r[i]| - 1]))
  {
    var parts := Split(s, sep);
    seq(|parts|, i requires 0 <= i < |parts| => Trim(parts[i]))
  }

  // ----- Lemmas -------------------------------------------------------------

  /** Splitting a piece that holds no separator and is followed by more text
      extends the first piece of the rest. */
  lemma SplitPrefix(a: string, b: string, sep: char)
    requires sep !in a
    ensures Split(a + b, sep) == [a + Split(b, sep)[0]] + Split(b, sep)[1..]
  {
    var s := a + b;
    assert s[..|a|] == a && s[|a|..] == b;
    SplitPrefixAt(s, |a|, sep);
  }

  /** The first piece of `s` starts with the separator-free prefix
      `s[..n]`. */
  lemma {:induction false} SplitPrefixAt(s: string, n: nat, sep: char)
    requires n <= |s| && sep !in s[..n]
    ensures Split(s, sep) == [s[..n] + Split(s[n..], sep)[0]] + Split(s[n..], sep)[1..]
    decreases n
  {
    if n == 0 {
      SplitPrefixBase(s, sep);
    } else {
      ShiftSlices(s, n, sep);
      SplitPrefixAt(s[1..], n - 1, sep);
      SplitPrefixStep(s, n, sep);
    }
  }

  lemma SplitPrefixBase(s: string, sep: char)
    ensures Split(s, sep) == [s[..0] + Split(s[0..], sep)[0]] + Split(s[0..], sep)[1..]
  {
    var R := Split(s, sep);
    assert s[..0] + R[0] == R[0] && s[0..] == s;
    assert R == [R[0]] + R[1..];
  }

  lemma ShiftSlices(s: string, n: nat, sep: char)
    requires 0 < n <= |s| && sep !in s[..n]
    ensures s[1..][n - 1..] == s[n..]
    ensures sep !in s[1..][..n - 1]
    ensures s[0] != sep
  {
    assert s[1..][..n - 1] == s[..n][1..];
    assert s[0] == s[..n][0];
  }

  lemma SplitPrefixStep(s: string, n: nat, sep: char)
    requires 0 < n <= |s| && s[0] != sep
    requires s[1..][n - 1..] == s[n..]
    requires Split(s[1..], sep) == [s[1..][..n - 1] + Split(s[n..], sep)[0]] + Split(s[n..], sep)[1..]
    ensures Split(s, sep) == [s[..n] + Split(s[n..], sep)[0]] + Split(s[n..], sep)[1..]
  {
    var T, R, x := Split(s[1..], sep), Split(s[n..], sep), s[1..][..n - 1];
    SplitHead(s, sep);
    assert T[0] == x + R[0] && T[1..] == R[1..];
    assert [s[0]] + x == s[..n];
    assert [s[0]] + (x + R[0]) == s[..n] + R[0];
  }

  lemma SplitHead(s: string, sep: char)
    requires |s| > 0 && s[0] != sep
    ensures Split(s, sep) == [[s[0]] + Split(s[1..], sep)[0]] + Split(s[1..], sep)[1..]
  {
  }

  /** Join undoes Split. */
  lemma {:induction false} JoinSplit(s: string, sep: char)
    ensures Join(Split(s, sep), sep) == s
    decreases |s|
  {
    if |s| > 0 {
      var rest := Split(s[1..], sep);
      JoinSplit(s[1..], sep);
      if s[0] == sep {
        var r := [""] + rest;
        assert r[1..] == rest;
        assert s == [sep] + s[1..];
      } else {
        var r := [[s[0]] + rest[0]] + rest[1..];
        assert r[1..] == rest[1..];
        assert s == [s[0]] + s[1..];
        if |rest| == 1 {
          assert Join(r, sep) == [s[0]] + rest[0];
        } else {
          assert Join(r, sep) == [s[0]] + rest[0] + [sep] + Join(rest[1..], sep);
        }
      }
    }
  }

  /** Split undoes Join: joining pieces that hold no separator and splitting
      the result gives the pieces back. */
  lemma {:induction false} SplitJoin(xs: seq<string>, sep: char)
    requires |xs| >= 1
    requires forall i :: 0 <= i < |xs| ==> sep !in xs[i]
    ensures Split(Join(xs, sep), sep) == xs
  {
    if |xs| == 1 {
      SplitPrefix(xs[0], "", sep);
      assert Split("", sep) == [""];
      assert Join(xs, sep) == xs[0] == xs[0] + "";
      assert [xs[0] + ""] + [""][1..] == xs;
    } else {
      var tail := Join(xs[1..], sep);
      SplitJoin(xs[1..], sep);
      assert Join(xs, sep) == xs[0] + ([sep] + tail);
      SplitPrefix(xs[0], [sep] + tail, sep);
      assert ([sep] + tail)[0] == sep;
      assert ([sep] + tail)[1..] == tail;
      var R := Split([sep] + tail, sep);
      assert R == [""] + Split(tail, sep);
      assert R[0] == "" && R[1..] == xs[1..];
      assert xs[0] + "" == xs[0];
      assert xs == [xs[0]] + xs[1..];
    }
  }

  /** `filter(Boolean)` of a single string keeps it exactly when it is
      non-empty. */
  lemma NonEmptySingle(x: string)
    ensures NonEmpty([x]) == if x == "" then [] else [x]
  {
    assert [x][1..] == [];
  }

  /** `filter(Boolean)` works piece by piece: filtering a concatenation
      filters each part and keeps them in order. With `NonEmptySingle` this
      fixes the order and the multiplicity of what is kept. */
  lemma {:induction false} NonEmptyAppend(a: seq<string>, b: seq<string>)
    ensures NonEmpty(a + b) == NonEmpty(a) + NonEmpty(b)
  {
    if |a| == 0 {
      assert a + b == b;
    } else {
      assert (a + b)[0] == a[0];
      assert (a + b)[1..] == a[1..] + b;
      NonEmptyAppend(a[1..], b);
    }
  }

  /** A line without a break, followed by a break and the rest: the items
      are the line's item, if it is not empty, and then the items of the
      rest. With `SplitLinesSingle` and the empty input this fixes every
      item, its order and its multiplicity. */
  lemma SplitLinesAppend(a: string, b: string)
    requires '\n' !in a
    ensures SplitLines(a + "\n" + b) == SplitLines(a) + SplitLines(b)
  {
    var nb := "\n" + b;
    assert a + "\n" + b == a + nb;
    assert nb[0] == '\n' && nb[1..] == b;
    assert Split(nb, '\n') == [""] + Split(b, '\n');
    assert Split(nb, '\n')[0] == "" && Split(nb, '\n')[1..] == Split(b, '\n');
    assert a + "" == a;
    SplitPrefix(a, nb, '\n');
    SplitPrefix(a, "", '\n');
    assert Split(a, '\n') == [a];
    NonEmptyAppend([a], Split(b, '\n'));
  }

  /** Dropping empty strings does not change the concatenation. */
  lemma {:induction false} ConcatNonEmpty(xs: seq<string>)
    ensures Concat(NonEmpty(xs)) == Concat(xs)
  {
    if |xs| > 0 {
      ConcatNonEmpty(xs[1..]);
      ConcatAppend(if xs[0] == "" then [] else [xs[0]], NonEmpty(xs[1..]));
    }
  }

  lemma {:induction false} ConcatAppend(a: seq<string>, b: seq<string>)
    ensures Concat(a + b) == Concat(a) + Concat(b)
  {
    if |a| > 0 {
      assert (a + b)[1..] == a[1..] + b;
      ConcatAppend(a[1..], b);
    } else {
      assert a + b == b;
    }
  }

  /** The pieces of a split, concatenated, are the input without its
      separators. */
  lemma {:induction false} ConcatSplit(s: string, sep: char)
    ensures Concat(Split(s, sep)) == Remove(s, sep)
  {
    if |s| > 0 {
      ConcatSplit(s[1..], sep);
      var rest := Split(s[1..], sep);
      if s[0] == sep {
        assert ([""] + rest)[1..] == rest;
      } else {
        var r := [[s[0]] + rest[0]] + rest[1..];
        assert r[1..] == rest[1..];
        assert Concat(rest) == rest[0] + Concat(rest[1..]);
      }
    }
  }

  /** The bullet items, concatenated, are the field's text with its line
      breaks removed: no other character is lost, added or reordered. */
  lemma SplitLinesContent(s: string)
    ensures Concat(SplitLines(s)) == Remove(s, '\n')
  {
    ConcatNonEmpty(Split(s, '\n'));
    ConcatSplit(s, '\n');
  }

  lemma {:induction false} RemoveEmptyIff(s: string, c: char)
    ensures Remove(s, c) == "" <==> forall i :: 0 <= i < |s| ==> s[i] == c
  {
    if |s| > 0 {
      RemoveEmptyIff(s[1..], c);
      if s[0] == c {
        forall i | 1 <= i < |s| ensures s[i] == s[1..][i - 1] { }
      }
    }
  }

  lemma {:induction false} ConcatLength(xs: seq<string>)
    requires forall i :: 0 <= i < |xs| ==> xs[i] != ""
    ensures |Concat(xs)| >= |xs|
  {
    if |xs| > 0 {
      ConcatLength(xs[1..]);
    }
  }

  /** A multi-line field gives no bullet items exactly when it holds
      nothing but line breaks (or nothing at all). */
  lemma SplitLinesEmptyIff(s: string)
    ensures SplitLines(s) == [] <==> forall i :: 0 <= i < |s| ==> s[i] == '\n'
  {
    SplitLinesContent(s);
    RemoveEmptyIff(s, '\n');
    ConcatLength(SplitLines(s));
  }

  /** A non-empty line without a line break is one item, verbatim: in
      particular a whitespace-only line survives `filter(Boolean)`. */
  lemma SplitLinesSingle(s: string)
    requires s != "" && '\n' !in s
    ensures SplitLines(s) == [s]
  {
    SplitPrefix(s, "", '\n');
    assert s + "" == s;
  }

  /** Trimming twice is trimming once. */
  lemma TrimIdempotent(s: string)
    ensures Trim(Trim(s)) == Trim(s)
  {
    var t := Trim(s);
    assert LeadingWhitespace(t) == 0;
    assert TrailingWhitespace(t[0..]) == 0;
    assert t[0..][..|t|] == t;
  }
}
