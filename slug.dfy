/** `slugify` of the category service: lower-case the name, turn every run of
    whitespace into one "-", then drop every character that is neither a word
    character nor "-". Whitespace is JavaScript's `\s` class and a word
    character is `\w` without the `u` flag ([A-Za-z0-9_]). Lower-casing is
    modelled on ASCII letters only. */
module Slug {

  /** The code points of JavaScript's `\s`: the ASCII blanks, NBSP, the Unicode
      space separators, the line and paragraph separators and the byte-order
      mark. */
  const SpaceCodes: seq<int> := [
    0x09, 0x0A, 0x0B, 0x0C, 0x0D, 0x20, 0xA0, 0x1680,
    0x2000, 0x2001, 0x2002, 0x2003, 0x2004, 0x2005, 0x2006, 0x2007, 0x2008, 0x2009, 0x200A,
    0x2028, 0x2029, 0x202F, 0x205F, 0x3000, 0xFEFF]

  predicate Listed(n: int, codes: seq<int>) {
    codes != [] && (codes[0] == n || Listed(n, codes[1..]))
  }

  /** `\s`. */
  predicate IsSpace(c: char) {
    Listed(c as int, SpaceCodes)
  }

  lemma {:induction false} ListedOutsideGap(n: int, codes: seq<int>)
    requires forall i :: 0 <= i < |codes| ==> codes[i] <= 0x20 || codes[i] >= 0xA0
    requires 0x20 < n < 0xA0
    ensures !Listed(n, codes)
  {
    if codes != [] {
      ListedOutsideGap(n, codes[1..]);
    }
  }

  lemma {:induction false} ListedAt(n: int, codes: seq<int>, i: nat)
    requires i < |codes| && codes[i] == n
    ensures Listed(n, codes)
  {
    if i > 0 {
      ListedAt(n, codes[1..], i - 1);
    }
  }

  /** The blank, U+0020, is whitespace. */
  lemma BlankIsSpace()
    ensures IsSpace(' ')
  {
    ListedAt(0x20, SpaceCodes, 5);
  }

  /** No character a slug is made of is whitespace: every whitespace code
      point is at most U+0020 or at least U+00A0. */
  lemma SlugCharIsNotSpace(c: char)
    requires IsSlugChar(c)
    ensures !IsSpace(c)
  {
    ListedOutsideGap(c as int, SpaceCodes);
  }

  /** `\w`. */
  predicate IsWordChar(c: char) {
    ('a' <= c <= 'z') || ('A' <= c <= 'Z') || ('0' <= c <= '9') || c == '_'
  }

  /** The characters a slug is made of. */
  predicate IsSlugChar(c: char) {
    ('a' <= c <= 'z') || ('0' <= c <= '9') || c == '_' || c == '-'
  }

  function LowerChar(c: char): char {
    if 'A' <= c <= 'Z' then (c as int + 32) as char else c
  }

  /** `toLowerCase()`. */
  function Lower(s: string): string {
    seq(|s|, i requires 0 <= i < |s| => LowerChar(s[i]))
  }

  /** The input with its leading whitespace removed. */
  function DropSpaces(s: string): (r: string)
    ensures |r| <= |s|
  {
    if s != [] && IsSpace(s[0]) then DropSpaces(s[1..]) else s
  }

  /** `replace(/\s+/g, "-")`. */
  function CollapseSpaces(s: string): (r: string)
    ensures |r| <= |s|
    decreases |s|
  {
    if s == [] then []
    else if IsSpace(s[0]) then "-" + CollapseSpaces(DropSpaces(s[1..]))
    else [s[0]] + CollapseSpaces(s[1..])
  }

  /** What `DropSpaces` removes is a prefix of whitespace, and what it keeps
      does not start with whitespace. */
  lemma {:induction false} DropSpacesIsSuffix(s: string)
    ensures var r := DropSpaces(s);
      && r == s[|s| - |r|..]
      && (forall i :: 0 <= i < |s| - |r| ==> IsSpace(s[i]))
      && (r == [] || !IsSpace(r[0]))
  {
    if s != [] && IsSpace(s[0]) {
      DropSpacesIsSuffix(s[1..]);
    }
  }

  /** `replace(/[^\w-]/g, "")`. */
  function StripNonWord(s: string): (r: string)
    ensures |r| <= |s|
    ensures forall i :: 0 <= i < |r| ==> IsWordChar(r[i]) || r[i] == '-'
    ensures NoUpper(s) ==> NoUpper(r)
  {
    if s == [] then []
    else if IsWordChar(s[0]) || s[0] == '-' then [s[0]] + StripNonWord(s[1..])
    else StripNonWord(s[1..])
  }

  function Slugify(s: string): string {
    StripNonWord(CollapseSpaces(Lower(s)))
  }

  predicate IsUpper(c: char) { 'A' <= c <= 'Z' }

  predicate NoUpper(s: string) { forall i :: 0 <= i < |s| ==> !IsUpper(s[i]) }

  predicate AllSpace(s: string) { forall i :: 0 <= i < |s| ==> IsSpace(s[i]) }

  predicate NoSpace(s: string) { forall i :: 0 <= i < |s| ==> !IsSpace(s[i]) }

  /** A slug is made of [a-z0-9_-] only, so in particular it holds no
      whitespace. */
  lemma SlugAlphabet(s: string)
    ensures forall i :: 0 <= i < |Slugify(s)| ==> IsSlugChar(Slugify(s)[i])
    ensures NoSpace(Slugify(s))
  {
    CollapseKeepsNoUpper(Lower(s));
    var r := Slugify(s);
    forall i | 0 <= i < |r| ensures !IsSpace(r[i]) {
      SlugCharIsNotSpace(r[i]);
    }
  }

  lemma {:induction false} CollapseKeepsNoUpper(s: string)
    requires NoUpper(s)
    ensures NoUpper(CollapseSpaces(s))
    decreases |s|
  {
    if s != [] {
      if IsSpace(s[0]) {
        var d := DropSpaces(s[1..]);
        DropSpacesIsSuffix(s[1..]);
        assert forall i :: 0 <= i < |d| ==> d[i] == s[1..][|s| - 1 - |d| + i];
        CollapseKeepsNoUpper(d);
      } else {
        CollapseKeepsNoUpper(s[1..]);
      }
    }
  }

  /** A slug is never longer than the name it came from. */
  lemma SlugNeverLonger(s: string)
    ensures |Slugify(s)| <= |s|
  {
    assert |Lower(s)| == |s|;
  }

  lemma {:induction false} DropSpacesOfRun(w: string, b: string)
    requires AllSpace(w)
    requires b == [] || !IsSpace(b[0])
    ensures DropSpaces(w + b) == b
    decreases |w|
  {
    if w == [] {
      assert w + b == b;
    } else {
      assert (w + b)[1..] == w[1..] + b;
      DropSpacesOfRun(w[1..], b);
    }
  }

  lemma {:induction false} DropSpacesAppend(x: string, y: string)
    requires !AllSpace(x)
    ensures DropSpaces(x + y) == DropSpaces(x) + y
    decreases |x|
  {
    if IsSpace(x[0]) {
      assert (x + y)[1..] == x[1..] + y;
      DropSpacesAppend(x[1..], y);
    } else {
      assert (x + y)[0] == x[0];
    }
  }

  lemma CollapseUnfold(c: char, t: string)
    ensures !IsSpace(c) ==> CollapseSpaces([c] + t) == [c] + CollapseSpaces(t)
    ensures IsSpace(c) ==> CollapseSpaces([c] + t) == "-" + CollapseSpaces(DropSpaces(t))
  {
    assert ([c] + t)[0] == c && ([c] + t)[1..] == t;
  }

  /** Collapsing distributes over a concatenation unless the cut splits a run
      of whitespace. */
  lemma {:induction false} CollapseSplit(a: string, b: string)
    requires a == [] || b == [] || !IsSpace(a[|a| - 1]) || !IsSpace(b[0])
    ensures CollapseSpaces(a + b) == CollapseSpaces(a) + CollapseSpaces(b)
    decreases |a|
  {
    if a == [] {
      assert a + b == b;
    } else if b == [] {
      assert a + b == a;
    } else {
      var c, t := a[0], a[1..];
      assert a == [c] + t;
      assert a + b == [c] + (t + b);
      if !IsSpace(c) {
        CollapseSplit(t, b);
        SplitWord(c, t, b);
      } else if AllSpace(t) {
        assert IsSpace(a[|a| - 1]);
        SplitRun(c, t, b);
      } else {
        var t' := DropSpaces(t);
        DropSpacesIsSuffix(t);
        assert t' != [] && t'[|t'| - 1] == a[|a| - 1];
        CollapseSplit(t', b);
        SplitRunThenMore(c, t, b);
      }
    }
  }

  lemma AppendAssoc(x: string, y: string, z: string)
    ensures x + (y + z) == (x + y) + z
  {
  }

  lemma SplitWord(c: char, t: string, b: string)
    requires !IsSpace(c)
    requires CollapseSpaces(t + b) == CollapseSpaces(t) + CollapseSpaces(b)
    ensures CollapseSpaces([c] + (t + b)) == CollapseSpaces([c] + t) + CollapseSpaces(b)
  {
    CollapseUnfold(c, t + b);
    CollapseUnfold(c, t);
    AppendAssoc([c], CollapseSpaces(t), CollapseSpaces(b));
  }

  lemma SplitRun(c: char, t: string, b: string)
    requires IsSpace(c) && AllSpace(t) && b != [] && !IsSpace(b[0])
    ensures CollapseSpaces([c] + (t + b)) == CollapseSpaces([c] + t) + CollapseSpaces(b)
  {
    CollapseUnfold(c, t);
    CollapseUnfold(c, t + b);
    DropSpacesOfRun(t, b);
    assert CollapseSpaces([c] + (t + b)) == "-" + CollapseSpaces(b);
    DropSpacesOfRun(t, []);
    assert t + [] == t;
    assert DropSpaces(t) == [];
    assert CollapseSpaces([c] + t) == "-";
  }

  lemma SplitRunThenMore(c: char, t: string, b: string)
    requires IsSpace(c) && !AllSpace(t)
    requires CollapseSpaces(DropSpaces(t) + b) == CollapseSpaces(DropSpaces(t)) + CollapseSpaces(b)
    ensures CollapseSpaces([c] + (t + b)) == CollapseSpaces([c] + t) + CollapseSpaces(b)
  {
    CollapseUnfold(c, t + b);
    DropSpacesAppend(t, b);
    CollapseUnfold(c, t);
    AppendAssoc("-", CollapseSpaces(DropSpaces(t)), CollapseSpaces(b));
  }

  lemma CollapseRunOfSpaces(w: string)
    requires w != [] && AllSpace(w)
    ensures CollapseSpaces(w) == "-"
  {
    DropSpacesOfRun(w[1..], []);
    assert w[1..] + [] == w[1..];
  }

  /** Each maximal run of whitespace becomes exactly one "-": a run `w` that has
      no whitespace on either side is replaced by a single hyphen. */
  lemma CollapseRun(a: string, w: string, b: string)
    requires w != [] && AllSpace(w)
    requires a == [] || !IsSpace(a[|a| - 1])
    requires b == [] || !IsSpace(b[0])
    ensures CollapseSpaces(a + w + b) == CollapseSpaces(a) + "-" + CollapseSpaces(b)
  {
    AppendAssoc(a, w, b);
    RunThenRest(w, b);
    CollapseSplit(a, w + b);
    AppendAssoc(CollapseSpaces(a), "-", CollapseSpaces(b));
  }

  /** A leading run of whitespace becomes one "-". */
  lemma RunThenRest(w: string, b: string)
    requires w != [] && AllSpace(w)
    requires b == [] || !IsSpace(b[0])
    ensures (w + b)[0] == w[0]
    ensures CollapseSpaces(w + b) == "-" + CollapseSpaces(b)
  {
    CollapseSplit(w, b);
    CollapseRunOfSpaces(w);
  }

  lemma {:induction false} CollapseNoSpace(s: string)
    requires NoSpace(s)
    ensures CollapseSpaces(s) == s
  {
    if s != [] {
      CollapseNoSpace(s[1..]);
    }
  }

  lemma {:induction false} StripKeepsSlug(s: string)
    requires forall i :: 0 <= i < |s| ==> IsSlugChar(s[i])
    ensures StripNonWord(s) == s
  {
    if s != [] {
      StripKeepsSlug(s[1..]);
    }
  }

  /** Slugifying a slug changes nothing. */
  lemma SlugifyIsIdempotent(s: string)
    ensures Slugify(Slugify(s)) == Slugify(s)
  {
    var t := Slugify(s);
    SlugAlphabet(s);
    assert Lower(t) == t;
    CollapseNoSpace(t);
    StripKeepsSlug(t);
  }

  predicate AllWord(s: string) { forall i :: 0 <= i < |s| ==> IsWordChar(s[i]) }

  predicate AllSlug(s: string) { forall i :: 0 <= i < |s| ==> IsSlugChar(s[i]) }

  lemma LowerAppend(a: string, b: string)
    ensures Lower(a + b) == Lower(a) + Lower(b)
  {
  }

  lemma LowerOfWord(x: string)
    requires AllWord(x)
    ensures AllSlug(Lower(x)) && NoSpace(Lower(x)) && CollapseSpaces(Lower(x)) == Lower(x)
  {
    NoSpaceOfSlugChars(Lower(x));
    CollapseNoSpace(Lower(x));
  }

  lemma LowerAround(x: string, sep: string, y: string)
    requires NoUpper(sep)
    ensures Lower(x + sep + y) == Lower(x) + sep + Lower(y)
  {
    LowerAppend(x + sep, y);
    LowerAppend(x, sep);
    assert Lower(sep) == sep;
  }

  lemma CollapseAroundBlank(lx: string, ly: string)
    requires lx != [] && ly != [] && !IsSpace(lx[|lx| - 1]) && !IsSpace(ly[0])
    ensures CollapseSpaces(lx + " " + ly) == CollapseSpaces(lx) + "-" + CollapseSpaces(ly)
  {
    BlankIsSpace();
    CollapseRun(lx, " ", ly);
  }

  lemma StripAroundHyphens(lx: string, h: string, ly: string)
    requires AllSlug(lx) && AllSlug(ly) && forall i :: 0 <= i < |h| ==> h[i] == '-'
    ensures StripNonWord(lx + h + ly) == lx + h + ly
  {
    StripKeepsSlug(lx + h + ly);
  }

  /** Two words separated by one blank become their lower-cased forms joined
      by one hyphen ("Hello World" gives "hello-world"). */
  lemma TwoWordsAreJoined(x: string, y: string)
    requires x != [] && y != [] && AllWord(x) && AllWord(y)
    ensures Slugify(x + " " + y) == Lower(x) + "-" + Lower(y)
  {
    var lx, ly := Lower(x), Lower(y);
    LowerAround(x, " ", y);
    LowerOfWord(x);
    LowerOfWord(y);
    CollapseAroundBlank(lx, ly);
    StripAroundHyphens(lx, "-", ly);
  }

  lemma CollapseAroundHyphen(lx: string, ly: string)
    requires lx != [] && ly != [] && NoSpace(lx) && NoSpace(ly)
    requires CollapseSpaces(lx) == lx && CollapseSpaces(ly) == ly
    ensures CollapseSpaces(lx + " - " + ly) == lx + "---" + ly
  {
    var rest := "-" + " " + ly;
    HyphenIsNotSpace();
    calc {
      CollapseSpaces(lx + " - " + ly);
      { assert lx + " - " + ly == lx + " " + rest; }
      CollapseSpaces(lx + " " + rest);
      { assert rest[0] == '-'; CollapseAroundBlank(lx, rest); }
      CollapseSpaces(lx) + "-" + CollapseSpaces(rest);
      { CollapseAroundBlank("-", ly); }
      lx + "-" + (CollapseSpaces("-") + "-" + ly);
      { HyphenCollapses(); }
      lx + "-" + ("-" + "-" + ly);
      lx + "---" + ly;
    }
  }

  lemma HyphenIsNotSpace()
    ensures !IsSpace('-')
  {
    SlugCharIsNotSpace('-');
  }

  lemma HyphenCollapses()
    ensures CollapseSpaces("-") == "-"
  {
    HyphenIsNotSpace();
  }

  /** Hyphens already in the name are kept, not merged with the one a run of
      whitespace becomes ("a - b" gives "a---b"). */
  lemma HyphensAreKept(x: string, y: string)
    requires x != [] && y != [] && AllWord(x) && AllWord(y)
    ensures Slugify(x + " - " + y) == Lower(x) + "---" + Lower(y)
  {
    var lx, ly := Lower(x), Lower(y);
    LowerAround(x, " - ", y);
    LowerOfWord(x);
    LowerOfWord(y);
    CollapseAroundHyphen(lx, ly);
    StripAroundHyphens(lx, "---", ly);
  }

  lemma NoSpaceOfSlugChars(s: string)
    requires AllSlug(s)
    ensures NoSpace(s)
  {
    forall i | 0 <= i < |s| ensures !IsSpace(s[i]) {
      SlugCharIsNotSpace(s[i]);
    }
  }
}
