/** The portfolio slug of src/pages/Builder.tsx:
    `title.toLowerCase().replace(/[^a-z0-9]+/g, "-").replace(/(^-|-$)/g, "") + "-ai"`.
    Lower-casing is modelled for ASCII letters only. */
module Slug {

  predicate IsUpperAscii(c: char)
  {
    'A' <= c <= 'Z'
  }

  /** The characters `[a-z0-9]` the slug keeps. */
  predicate IsSlugChar(c: char)
  {
    ('a' <= c <= 'z') || ('0' <= c <= '9')
  }

  function LowerChar(c: char): (r: char)
    ensures !IsUpperAscii(r)
    ensures IsSlugChar(r) <==> IsSlugChar(c) || IsUpperAscii(c)
  {
    if IsUpperAscii(c) then (c as int + 32) as char else c
  }

  /** `toLowerCase()` on ASCII letters; every other character is kept. */
  function Lower(s: string): (r: string)
    ensures |r| == |s|
    ensures forall i :: 0 <= i < |r| ==> !IsUpperAscii(r[i])
    ensures forall i :: 0 <= i < |s| && !IsUpperAscii(s[i]) ==> r[i] == s[i]
  {
    seq(|s|, i requires 0 <= i < |s| => LowerChar(s[i]))
  }

  /** The slug characters of `s`, in order. */
  function Alnums(s: string): string
  {
    if |s| == 0 then "" else (if IsSlugChar(s[0]) then [s[0]] else "") + Alnums(s[1..])
  }

  /** No two hyphens in a row. */
  predicate NoDoubleHyphen(s: string)
  {
    forall i :: 0 <= i < |s| - 1 ==> !(s[i] == '-' && s[i + 1] == '-')
  }

  /** Every character is a slug character or a hyphen. */
  predicate SlugAlphabet(s: string)
  {
    forall i :: 0 <= i < |s| ==> IsSlugChar(s[i]) || s[i] == '-'
  }

  /** A well-formed slug core: only `a-z`, `0-9` and `-`, no `--`, and no
      hyphen at either end. */
  predicate IsSlugCore(s: string)
  {
    && SlugAlphabet(s)
    && NoDoubleHyphen(s)
    && (s == "" || (s[0] != '-' && s[|s| - 1] != '-'))
  }

  /** How many non-slug characters `s` starts with. */
  function RunLength(s: string): (k: nat)
    ensures k <= |s|
    ensures forall i :: 0 <= i < k ==> !IsSlugChar(s[i])
    ensures k < |s| ==> IsSlugChar(s[k])
  {
    if |s| == 0 || IsSlugChar(s[0]) then 0
    else
      var k := 1 + RunLength(s[1..]);
      assert forall i :: 1 <= i < k ==> s[i] == s[1..][i - 1];
      k
  }

  /** The length of the first piece of a non-empty `s`: one slug character,
      or the whole run of non-slug characters it starts with. */
  function PieceLength(s: string): (k: nat)
    requires |s| > 0
    ensures 1 <= k <= |s|
  {
    if IsSlugChar(s[0]) then 1 else RunLength(s)
  }

  /** What a piece starting with `c` becomes: itself, or one hyphen. */
  function PieceChar(c: char): char
  {
    if IsSlugChar(c) then c else '-'
  }

  /** `replace(/[^a-z0-9]+/g, "-")`: every maximal run of non-slug characters
      becomes one hyphen (the shape of the result is `CollapseShape`). */
  function Collapse(s: string): string
    decreases |s|
  {
    if |s| == 0 then "" else [PieceChar(s[0])] + Collapse(s[PieceLength(s)..])
  }

  /** `replace(/(^-|-$)/g, "")`: removes one leading and one trailing hyphen. */
  function StripEdges(s: string): (r: string)
    ensures SlugAlphabet(s) && NoDoubleHyphen(s) ==> IsSlugCore(r)
  {
    var a := if |s| > 0 && s[0] == '-' then s[1..] else s;
    if |a| > 0 && a[|a| - 1] == '-' then a[..|a| - 1] else a
  }

  /** The slug before its suffix: always a well-formed slug core, holding
      every ASCII letter (lower-cased) and digit of the title, in order. */
  function SlugCore(title: string): (r: string)
    ensures IsSlugCore(r)
    ensures Alnums(r) == Alnums(Lower(title))
  {
    var c := Collapse(Lower(title));
    CollapseShape(Lower(title));
    CollapseKeepsAlnums(Lower(title));
    StripEdgesKeepsAlnums(c);
    StripEdges(c)
  }

  /** The portfolio slug: a well-formed core followed by `-ai`. */
  function MakeSlug(title: string): (r: string)
    ensures |r| >= 3 && r[|r| - 3..] == "-ai"
    ensures IsSlugCore(r[..|r| - 3])
  {
    var core := SlugCore(title);
    assert (core + "-ai")[..|core|] == core;
    core + "-ai"
  }

  // ----- Lemmas -------------------------------------------------------------

  /** Collapsing gives text over the slug alphabet with no `--`, empty
      exactly when the input is, and starting with a hyphen exactly when the
      input starts with a non-slug character. */
  lemma {:induction false} CollapseShape(s: string)
    ensures SlugAlphabet(Collapse(s))
    ensures NoDoubleHyphen(Collapse(s))
    ensures |Collapse(s)| > 0 <==> |s| > 0
    ensures |s| > 0 ==> (Collapse(s)[0] == '-' <==> !IsSlugChar(s[0]))
    decreases |s|
  {
    if |s| > 0 {
      var k := PieceLength(s);
      CollapseShape(s[k..]);
      assert k < |s| && !IsSlugChar(s[0]) ==> IsSlugChar(s[k..][0]);
      ConsShape(PieceChar(s[0]), Collapse(s[k..]));
    }
  }

  /** Putting a slug character, or a hyphen before a text that does not
      start with one, in front of a well-shaped text keeps it well-shaped. */
  lemma ConsShape(ch: char, c: string)
    requires IsSlugChar(ch) || (ch == '-' && (c == "" || c[0] != '-'))
    requires SlugAlphabet(c) && NoDoubleHyphen(c)
    ensures SlugAlphabet([ch] + c) && NoDoubleHyphen([ch] + c)
  {
    var r := [ch] + c;
    assert forall i :: 1 <= i < |r| ==> r[i] == c[i - 1];
  }

  lemma {:induction false} AlnumsAppend(a: string, b: string)
    ensures Alnums(a + b) == Alnums(a) + Alnums(b)
  {
    if |a| == 0 {
      assert a + b == b;
    } else {
      assert (a + b)[1..] == a[1..] + b;
      AlnumsAppend(a[1..], b);
    }
  }

  /** A run of non-slug characters holds no slug character. */
  lemma {:induction false} AlnumsOfRun(s: string)
    requires forall i :: 0 <= i < |s| ==> !IsSlugChar(s[i])
    ensures Alnums(s) == ""
  {
    if |s| > 0 {
      AlnumsOfRun(s[1..]);
    }
  }

  /** Collapsing runs keeps every slug character, in order. */
  lemma {:induction false} CollapseKeepsAlnums(s: string)
    ensures Alnums(Collapse(s)) == Alnums(s)
    decreases |s|
  {
    if |s| > 0 {
      var k := PieceLength(s);
      CollapseKeepsAlnums(s[k..]);
      assert ([PieceChar(s[0])] + Collapse(s[k..]))[1..] == Collapse(s[k..]);
      assert s == s[..k] + s[k..];
      AlnumsAppend(s[..k], s[k..]);
      if IsSlugChar(s[0]) {
        assert s[..k][1..] == "";
      } else {
        AlnumsOfRun(s[..k]);
      }
    }
  }

  /** Stripping edge hyphens keeps every slug character. */
  lemma {:induction false} StripEdgesKeepsAlnums(s: string)
    ensures Alnums(StripEdges(s)) == Alnums(s)
  {
    var a := if |s| > 0 && s[0] == '-' then s[1..] else s;
    assert Alnums(a) == Alnums(s);
    if |a| > 0 && a[|a| - 1] == '-' {
      var b := a[..|a| - 1];
      assert a == b + "-";
      AlnumsAppend(b, "-");
      assert Alnums("-") == "" + Alnums("");
      assert StripEdges(s) == b;
    } else {
      assert StripEdges(s) == a;
    }
  }

  /** On text already over the slug alphabet with no `--`, collapsing changes
      nothing. */
  lemma {:induction false} CollapseFixpoint(s: string)
    requires SlugAlphabet(s) && NoDoubleHyphen(s)
    ensures Collapse(s) == s
    decreases |s|
  {
    if |s| > 0 {
      assert PieceLength(s) == 1 by {
        if !IsSlugChar(s[0]) && |s| > 1 {
          assert IsSlugChar(s[1]);
        }
      }
      assert SlugAlphabet(s[1..]) && NoDoubleHyphen(s[1..]);
      CollapseFixpoint(s[1..]);
      assert s == [PieceChar(s[0])] + s[1..];
    }
  }

  /** The slug core is idempotent: a well-formed core is its own core. */
  lemma SlugCoreFixpoint(s: string)
    requires IsSlugCore(s)
    ensures SlugCore(s) == s
  {
    assert Lower(s) == s;
    CollapseFixpoint(s);
  }

  /** Applying the core transformation to a core gives it back; and the
      cores are exactly the fixed points of the transformation. */
  lemma SlugCoreIdempotent(title: string, s: string)
    ensures SlugCore(SlugCore(title)) == SlugCore(title)
    ensures SlugCore(s) == s <==> IsSlugCore(s)
  {
    SlugCoreFixpoint(SlugCore(title));
    if IsSlugCore(s) {
      SlugCoreFixpoint(s);
    }
  }

  /** The core is empty exactly when the title has no ASCII letter or digit;
      the slug is then just `-ai`. */
  lemma SlugCoreEmptyIff(title: string)
    ensures SlugCore(title) == "" <==> Alnums(Lower(title)) == ""
  {
    var r := SlugCore(title);
    if r != "" {
      assert IsSlugChar(r[0]);
      assert Alnums(r)[0] == r[0];
    }
  }

  /** A run of slug characters passes through collapsing unchanged. */
  lemma CollapseWord(w: string, rest: string)
    requires forall i :: 0 <= i < |w| ==> IsSlugChar(w[i])
    ensures Collapse(w + rest) == w + Collapse(rest)
  {
    var s := w + rest;
    assert forall i :: 0 <= i < |w| ==> s[i] == w[i];
    CollapsePrefix(s, |w|);
    assert s[..|w|] == w && s[|w|..] == rest;
  }

  /** A prefix of slug characters passes through collapsing unchanged. */
  lemma {:induction false} CollapsePrefix(s: string, n: nat)
    requires n <= |s|
    requires forall i :: 0 <= i < n ==> IsSlugChar(s[i])
    ensures Collapse(s) == s[..n] + Collapse(s[n..])
    decreases n
  {
    if n == 0 {
      assert s[..0] + Collapse(s[0..]) == Collapse(s);
    } else {
      TailSlugPrefix(s, n);
      CollapsePrefix(s[1..], n - 1);
      CollapsePrefixStep(s, n);
    }
  }

  lemma TailSlugPrefix(s: string, n: nat)
    requires 0 < n <= |s|
    requires forall i :: 0 <= i < n ==> IsSlugChar(s[i])
    ensures forall i :: 0 <= i < n - 1 ==> IsSlugChar(s[1..][i])
    ensures s[1..][n - 1..] == s[n..]
  {
    assert forall i :: 0 <= i < n - 1 ==> s[1..][i] == s[i + 1];
  }

  lemma CollapsePrefixStep(s: string, n: nat)
    requires 0 < n <= |s| && IsSlugChar(s[0])
    requires s[1..][n - 1..] == s[n..]
    requires Collapse(s[1..]) == s[1..][..n - 1] + Collapse(s[n..])
    ensures Collapse(s) == s[..n] + Collapse(s[n..])
  {
    CollapseSlugHead(s);
    ConsPrefix(s, n, Collapse(s), Collapse(s[1..]), Collapse(s[n..]));
  }

  /** Sequence bookkeeping for one step of `CollapsePrefix`. */
  lemma ConsPrefix(s: string, n: nat, whole: string, tail: string, rest: string)
    requires 0 < n <= |s|
    requires whole == [s[0]] + tail && tail == s[1..][..n - 1] + rest
    ensures whole == s[..n] + rest
  {
    assert [s[0]] + s[1..][..n - 1] == s[..n];
  }

  lemma CollapseSlugHead(s: string)
    requires |s| > 0 && IsSlugChar(s[0])
    ensures Collapse(s) == [s[0]] + Collapse(s[1..])
  {
    assert PieceLength(s) == 1;
  }

  lemma TailOfWord(w: string)
    requires |w| > 0 && forall i :: 0 <= i < |w| ==> IsSlugChar(w[i])
    ensures forall i :: 0 <= i < |w[1..]| ==> IsSlugChar(w[1..][i])
  {
  }

  /** Two words, each separated from the next by a run of punctuation or
      spaces and followed by another such run, become the words joined by
      one hyphen: the title "jane doe!!" gives "jane-doe-ai". */
  lemma TwoWordSlug(w1: string, gap: string, w2: string, tail: string)
    requires IsWord(w1) && IsWord(w2)
    requires IsGap(gap) && IsGap(tail)
    ensures MakeSlug(w1 + gap + w2 + tail) == w1 + "-" + w2 + "-ai"
  {
    var title := w1 + gap + w2 + tail;
    LowerKeeps(w1, gap, w2, tail);
    CollapseTwoWords(w1, gap, w2, tail);
    StripTrailingHyphen(w1 + "-" + w2 + "-");
    assert (w1 + "-" + w2 + "-")[..|w1 + "-" + w2 + "-"| - 1] == w1 + "-" + w2;
  }

  lemma CollapseTwoWords(w1: string, gap: string, w2: string, tail: string)
    requires IsWord(w1) && IsWord(w2)
    requires IsGap(gap) && IsGap(tail)
    ensures Collapse(w1 + gap + w2 + tail) == w1 + "-" + w2 + "-"
  {
    CollapseWordGap(w2, tail, "");
    assert w2 + tail + "" == w2 + tail;
    CollapseWordGap(w1, gap, w2 + tail);
    assert w1 + gap + (w2 + tail) == w1 + gap + w2 + tail;
    assert w1 + "-" + (w2 + "-") == w1 + "-" + w2 + "-";
  }

  /** A word, then a gap, then text that starts with a slug character or
      is empty: the gap becomes one hyphen. */
  lemma CollapseWordGap(w: string, gap: string, rest: string)
    requires IsWord(w) && IsGap(gap)
    requires rest == "" || IsSlugChar(rest[0])
    ensures Collapse(w + gap + rest) == w + "-" + Collapse(rest)
  {
    CollapseGap(gap, rest);
    WordThenCollapsed(w, gap + rest, "-" + Collapse(rest));
    assert w + gap + rest == w + (gap + rest);
    assert w + ("-" + Collapse(rest)) == w + "-" + Collapse(rest);
  }

  lemma StripTrailingHyphen(c: string)
    requires |c| > 0 && c[0] != '-' && c[|c| - 1] == '-'
    ensures StripEdges(c) == c[..|c| - 1]
  {
  }

  /** A non-empty run of slug characters. */
  predicate IsWord(w: string)
  {
    |w| > 0 && forall i :: 0 <= i < |w| ==> IsSlugChar(w[i])
  }

  /** A non-empty run of characters that are neither slug characters nor
      upper-case letters. */
  predicate IsGap(g: string)
  {
    |g| > 0 && forall i :: 0 <= i < |g| ==> !IsSlugChar(g[i]) && !IsUpperAscii(g[i])
  }

  lemma LowerKeeps(w1: string, gap: string, w2: string, tail: string)
    requires IsWord(w1) && IsWord(w2)
    requires IsGap(gap) && IsGap(tail)
    ensures Lower(w1 + gap + w2 + tail) == w1 + gap + w2 + tail
  {
    var t := w1 + gap + w2 + tail;
    forall i | 0 <= i < |t| ensures !IsUpperAscii(t[i]) {
      if i < |w1| {
        assert t[i] == w1[i];
      } else if i < |w1| + |gap| {
        assert t[i] == gap[i - |w1|];
      } else if i < |w1| + |gap| + |w2| {
        assert t[i] == w2[i - |w1| - |gap|];
      } else {
        assert t[i] == tail[i - |w1| - |gap| - |w2|];
      }
    }
  }

  /** A gap collapses to one hyphen before a text that starts with a slug
      character or is empty. */
  lemma CollapseGap(gap: string, rest: string)
    requires IsGap(gap)
    requires rest == "" || IsSlugChar(rest[0])
    ensures Collapse(gap + rest) == "-" + Collapse(rest)
  {
    var s := gap + rest;
    assert !IsSlugChar(s[0]);
    var k := PieceLength(s);
    assert forall i :: 0 <= i < |gap| ==> s[i] == gap[i];
    assert |rest| > 0 ==> s[|gap|] == rest[0];
    assert k == |gap|;
    assert s[k..] == rest;
  }

  lemma WordThenCollapsed(w: string, tail: string, c: string)
    requires forall i :: 0 <= i < |w| ==> IsSlugChar(w[i])
    requires Collapse(tail) == c
    ensures Collapse(w + tail) == w + c
  {
    CollapseWord(w, tail);
  }
}
