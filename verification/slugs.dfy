/** `createSlug` and `slugToReadable`: the URL form of a strategy name and its way back. */
module Slugs {
  import opened Text

  /** The characters the slug keeps: `\w` and the hyphen. */
  predicate IsSlugChar(c: char) {
    IsWordChar(c) || c == '-'
  }

  predicate NoDoubleHyphen(s: string) {
    forall i :: 0 <= i < |s| - 1 ==> !(s[i] == '-' && s[i + 1] == '-')
  }

  /** What `createSlug` promises of its output: lower case, only `\w` and `-`, no `--`. */
  predicate IsSlug(s: string) {
    && (forall c :: c in s ==> IsSlugChar(c) && !IsAsciiUpper(c))
    && NoDoubleHyphen(s)
  }

  lemma SlugCharIsNotWhitespace(c: char)
    requires IsSlugChar(c)
    ensures !IsWhitespace(c)
  {
  }

  /** `.replace(/\s+/g, "-")`: every maximal run of white space becomes one hyphen. */
  function HyphenateWhitespace(s: string): (r: string)
    ensures NoWhitespace(r)
    ensures forall c :: c in r ==> c == '-' || c in s
    decreases |s|
  {
    if |s| == 0 then []
    else if IsWhitespace(s[0]) then
      var rest := TrimStart(s);
      assert |rest| < |s|;
      "-" + HyphenateWhitespace(rest)
    else
      assert forall c :: c in s[1..] ==> c in s;
      [s[0]] + HyphenateWhitespace(s[1..])
  }

  lemma {:induction false} HyphenateWithoutWhitespace(s: string)
    requires NoWhitespace(s)
    ensures HyphenateWhitespace(s) == s
  {
    if |s| > 0 {
      HyphenateWithoutWhitespace(s[1..]);
      assert s == [s[0]] + s[1..];
    }
  }

  /** `.replace(/[^\w\-]+/g, "")`: every character outside `\w` and `-` is removed. */
  function KeepSlugChars(s: string): (r: string)
    ensures forall c :: c in r ==> IsSlugChar(c) && c in s
  {
    if |s| == 0 then []
    else
      assert forall c :: c in s[1..] ==> c in s;
      if IsSlugChar(s[0]) then [s[0]] + KeepSlugChars(s[1..])
      else KeepSlugChars(s[1..])
  }

  lemma {:induction false} KeepSlugCharsOfSlugChars(s: string)
    requires forall c :: c in s ==> IsSlugChar(c)
    ensures KeepSlugChars(s) == s
  {
    if |s| > 0 {
      assert s[0] in s;
      assert forall c :: c in s[1..] ==> c in s;
      KeepSlugCharsOfSlugChars(s[1..]);
      assert s == [s[0]] + s[1..];
    }
  }

  /** Drops the leading hyphens. */
  function DropHyphens(s: string): (r: string)
    ensures |r| <= |s|
    ensures |r| > 0 ==> r[0] != '-'
    ensures |s| > 0 && s[0] == '-' ==> |r| < |s|
    ensures forall c :: c in r ==> c in s
  {
    if |s| > 0 && s[0] == '-' then
      assert forall c :: c in s[1..] ==> c in s;
      DropHyphens(s[1..])
    else s
  }

  /** `.replace(/\-\-+/g, "-")`: every run of two or more hyphens becomes one. */
  function CollapseHyphens(s: string): (r: string)
    ensures NoDoubleHyphen(r)
    ensures |s| > 0 ==> |r| > 0 && r[0] == s[0]
    ensures forall c :: c in r ==> c in s
    decreases |s|
  {
    if |s| == 0 then []
    else if s[0] == '-' then
      "-" + CollapseHyphens(DropHyphens(s))
    else
      assert forall c :: c in s[1..] ==> c in s;
      [s[0]] + CollapseHyphens(s[1..])
  }

  lemma {:induction false} CollapseWithoutDoubleHyphen(s: string)
    requires NoDoubleHyphen(s)
    ensures CollapseHyphens(s) == s
    decreases |s|
  {
    if |s| > 0 {
      if s[0] == '-' && |s| > 1 {
        assert s[1] != '-';
        assert DropHyphens(s) == DropHyphens(s[1..]) == s[1..];
      }
      CollapseWithoutDoubleHyphen(s[1..]);
      assert s == [s[0]] + s[1..];
    }
  }

  /** `createSlug`: lower-case, trim, hyphenate white space, drop everything
      but word characters and hyphens, collapse hyphen runs. */
  function CreateSlug(s: string): (r: string)
    ensures IsSlug(r)
  {
    var lowered := Lower(s);
    var trimmed := Trim(lowered);
    var hyphenated := HyphenateWhitespace(trimmed);
    var kept := KeepSlugChars(hyphenated);
    var r := CollapseHyphens(kept);
    assert forall c :: c in lowered ==> !IsAsciiUpper(c);
    assert forall c :: c in hyphenated ==> !IsAsciiUpper(c);
    assert forall c :: c in kept ==> IsSlugChar(c) && !IsAsciiUpper(c);
    r
  }

  lemma LowerOfLowerCase(s: string)
    requires forall c :: c in s ==> !IsAsciiUpper(c)
    ensures Lower(s) == s
  {
    assert forall i :: 0 <= i < |s| ==> !IsAsciiUpper(s[i]) by {
      forall i | 0 <= i < |s| ensures !IsAsciiUpper(s[i]) {
        assert s[i] in s;
      }
    }
  }

  lemma SlugHasNoWhitespace(s: string)
    requires forall c :: c in s ==> IsSlugChar(c)
    ensures NoWhitespace(s)
  {
    forall i | 0 <= i < |s|
      ensures !IsWhitespace(s[i])
    {
      assert s[i] in s;
      SlugCharIsNotWhitespace(s[i]);
    }
  }

  /** A slug is its own slug. */
  lemma SlugIsFixpoint(s: string)
    requires IsSlug(s)
    ensures CreateSlug(s) == s
  {
    LowerOfLowerCase(s);
    SlugHasNoWhitespace(s);
    assert Trim(s) == s;
    HyphenateWithoutWhitespace(s);
    KeepSlugCharsOfSlugChars(s);
    CollapseWithoutDoubleHyphen(s);
  }

  /** `createSlug` is idempotent. */
  lemma CreateSlugIdempotent(s: string)
    ensures CreateSlug(CreateSlug(s)) == CreateSlug(s)
  {
    SlugIsFixpoint(CreateSlug(s));
  }

  lemma LowerAppend(a: string, b: string)
    ensures Lower(a + b) == Lower(a) + Lower(b)
  {
  }

  lemma LowerOfWhitespace(w: string)
    requires AllWhitespace(w)
    ensures Lower(w) == w
  {
  }

  /** White space around a name does not change its slug. */
  lemma CreateSlugIgnoresPadding(w1: string, s: string, w2: string)
    requires AllWhitespace(w1) && AllWhitespace(w2)
    ensures CreateSlug(w1 + s + w2) == CreateSlug(s)
  {
    LowerAppend(w1 + s, w2);
    LowerAppend(w1, s);
    LowerOfWhitespace(w1);
    LowerOfWhitespace(w2);
    assert Lower(w1 + s + w2) == w1 + Lower(s) + w2;
    TrimPadded(w1, Lower(s), w2);
  }

  // ---------------------------------------------------------------- back to text

  /** `.replace(/-/g, " ")`. */
  function Unhyphenate(s: string): (r: string)
    ensures |r| == |s|
    ensures forall i :: 0 <= i < |s| ==> r[i] == (if s[i] == '-' then ' ' else s[i])
  {
    seq(|s|, i requires 0 <= i < |s| => if s[i] == '-' then ' ' else s[i])
  }

  /** Position `i` holds a word character that `\b\w` matches: the first character of a word. */
  predicate StartsWord(s: string, i: int)
    requires 0 <= i < |s|
  {
    IsWordChar(s[i]) && (i == 0 || !IsWordChar(s[i - 1]))
  }

  /** `.replace(/\b\w/g, (char) => char.toUpperCase())`. */
  function CapitalizeWords(s: string): (r: string)
    ensures |r| == |s|
    ensures forall i :: 0 <= i < |s| ==> r[i] == (if StartsWord(s, i) then ToUpper(s[i]) else s[i])
  {
    seq(|s|, i requires 0 <= i < |s| => if StartsWord(s, i) then ToUpper(s[i]) else s[i])
  }

  /** `slugToReadable`: hyphens become spaces and every word gets a capital first letter. */
  function SlugToReadable(slug: string): (r: string)
    ensures |r| == |slug|
    ensures forall i :: 0 <= i < |r| ==> r[i] != '-'
    ensures forall i :: 0 <= i < |r| && slug[i] == '-' ==> r[i] == ' '
    ensures forall i :: 0 <= i < |r| && slug[i] != '-' ==>
              r[i] == (if StartsWord(Unhyphenate(slug), i) then ToUpper(slug[i]) else slug[i])
  {
    CapitalizeWords(Unhyphenate(slug))
  }

  /** The slugs `createSlug` can give back unchanged from readable text: no hyphen at either end. */
  predicate IsCanonicalSlug(s: string) {
    IsSlug(s) && (|s| > 0 ==> s[0] != '-' && s[|s| - 1] != '-')
  }

  lemma {:induction false} HyphenateUnhyphenated(s: string)
    requires forall c :: c in s ==> IsSlugChar(c)
    requires NoDoubleHyphen(s)
    ensures HyphenateWhitespace(Unhyphenate(s)) == s
    decreases |s|
  {
    if |s| > 0 {
      var u := Unhyphenate(s);
      assert u[1..] == Unhyphenate(s[1..]);
      assert s[0] in s;
      SlugCharIsNotWhitespace(s[0]);
      assert forall c :: c in s[1..] ==> c in s;
      if s[0] == '-' {
        if |s| > 1 {
          assert s[1] in s;
          SlugCharIsNotWhitespace(s[1]);
        }
        assert TrimStart(u) == u[1..];
      }
      HyphenateUnhyphenated(s[1..]);
      assert s == [s[0]] + s[1..];
    }
  }

  lemma LowerOfUpper(c: char)
    requires !IsAsciiUpper(c)
    ensures ToLower(ToUpper(c)) == c
  {
  }

  lemma LowerOfReadable(s: string)
    requires forall c :: c in s ==> !IsAsciiUpper(c)
    ensures Lower(SlugToReadable(s)) == Unhyphenate(s)
  {
    var u := Unhyphenate(s);
    var r := SlugToReadable(s);
    var l := Lower(r);
    forall i | 0 <= i < |u|
      ensures l[i] == u[i]
    {
      assert s[i] in s;
      if s[i] != '-' {
        LowerOfUpper(s[i]);
      }
    }
  }

  /** `createSlug` undoes `slugToReadable` on every slug without a hyphen at either end. */
  lemma ReadableRoundTrip(s: string)
    requires IsCanonicalSlug(s)
    ensures CreateSlug(SlugToReadable(s)) == s
  {
    var u := Unhyphenate(s);
    LowerOfReadable(s);
    if |s| > 0 {
      assert s[0] in s && s[|s| - 1] in s;
      SlugCharIsNotWhitespace(s[0]);
      SlugCharIsNotWhitespace(s[|s| - 1]);
    }
    assert Trim(u) == u;
    HyphenateUnhyphenated(s);
    KeepSlugCharsOfSlugChars(s);
    CollapseWithoutDoubleHyphen(s);
  }
}
