/** `slugify` (`recipe.py`): a directory name for a project. */
module Slugs {
  import opened Decimals

  predicate SlugChar(c: char) { 'a' <= c <= 'z' || '0' <= c <= '9' }

  /** Every run of other characters becomes one dash; a leading one is dropped. The name is given
      in lower case. */
  function Dashed(name: string): string {
    if |name| == 0 then ""
    else
      var rest, c := Dashed(name[..|name| - 1]), name[|name| - 1];
      if SlugChar(c) then rest + [c]
      else if rest == "" || rest[|rest| - 1] == '-' then rest
      else rest + "-"
  }

  /** `.strip("-")[:40]` of that: at most one dash is at the end and none at the start. */
  function Base(name: string): string {
    var s := Dashed(name);
    var t := if |s| > 0 && s[|s| - 1] == '-' then s[..|s| - 1] else s;
    if |t| > 40 then t[..40] else t
  }

  /** Letters, digits and dashes, and no dash in front: safe as a directory name. */
  predicate LegalSlug(s: string) {
    s != "" && SlugChar(s[0]) && forall i | 0 <= i < |s| :: SlugChar(s[i]) || s[i] == '-'
  }

  lemma {:induction false} DashedLegal(name: string)
    ensures Dashed(name) != "" ==> LegalSlug(Dashed(name))
    ensures forall i | 0 < i < |Dashed(name)| :: Dashed(name)[i] != '-' || Dashed(name)[i - 1] != '-'
  {
    if |name| > 0 {
      DashedLegal(name[..|name| - 1]);
    }
  }

  lemma BaseLegal(name: string)
    ensures Base(name) != "" ==> LegalSlug(Base(name)) && |Base(name)| <= 40
  {
    DashedLegal(name);
  }

  /** The letters and digits of a text, in order. */
  function Letters(s: string): string {
    if |s| == 0 then "" else Letters(s[..|s| - 1]) + if SlugChar(s[|s| - 1]) then [s[|s| - 1]] else ""
  }

  lemma LettersSnoc(s: string, c: char)
    ensures Letters(s + [c]) == Letters(s) + if SlugChar(c) then [c] else ""
  {
    assert (s + [c])[..|s|] == s;
  }

  lemma {:induction false} DashedLetters(name: string)
    ensures Letters(Dashed(name)) == Letters(name)
  {
    if |name| > 0 {
      var rest, c := Dashed(name[..|name| - 1]), name[|name| - 1];
      DashedLetters(name[..|name| - 1]);
      LettersSnoc(rest, if SlugChar(c) then c else '-');
    }
  }

  /** A base is cut at forty characters; a shorter one keeps every letter and digit of the name, in order,
      and has no dash at either end and no two in a row. */
  lemma BaseKeepsLetters(name: string)
    ensures |Base(name)| < 40 ==> Letters(Base(name)) == Letters(name)
    ensures 0 < |Base(name)| < 40 ==> Base(name)[0] != '-' && Base(name)[|Base(name)| - 1] != '-'
    ensures forall i | 0 < i < |Base(name)| :: Base(name)[i] != '-' || Base(name)[i - 1] != '-'
    ensures |Base(name)| <= 40
  {
    var s := Dashed(name);
    DashedLegal(name);
    DashedLetters(name);
    if |s| > 0 && s[|s| - 1] == '-' {
      LettersSnoc(s[..|s| - 1], '-');
      assert s == s[..|s| - 1] + ['-'];
    }
  }

  function Numbered(base: string, i: nat): string { base + "-" + Decimal(i) }

  lemma NumberedInjective(base: string, i: nat, j: nat)
    requires Numbered(base, i) == Numbered(base, j)
    ensures i == j
  {
    assert Numbered(base, i)[|base| + 1..] == Decimal(i);
    assert Numbered(base, j)[|base| + 1..] == Decimal(j);
    DecimalInjective(i, j);
  }

  lemma NumberedLegal(base: string, i: nat)
    requires LegalSlug(base)
    ensures LegalSlug(Numbered(base, i))
  {
    ReadBack(i);
    var s := Numbered(base, i);
    forall k | 0 <= k < |s|
      ensures SlugChar(s[k]) || s[k] == '-'
    {
      if k > |base| {
        assert s[k] == Decimal(i)[k - |base| - 1];
      }
    }
  }

  /** The base, or the fallback when the name has no Latin letter or digit. */
  function BaseOr(name: string, taken: set<string>): string {
    if Base(name) != "" then Base(name) else "project-" + Decimal(|taken| + 1)
  }

  lemma BaseOrLegal(name: string, taken: set<string>)
    ensures LegalSlug(BaseOr(name, taken))
  {
    BaseLegal(name);
    ReadBack(|taken| + 1);
    assert "project-" + Decimal(|taken| + 1) == Numbered("project", |taken| + 1);
    NumberedLegal("project", |taken| + 1);
  }

  /** The search ends, because only finitely many names are taken; the slug is free, legal, and
      either the base or the base with the least free number from 2 on. */
  method Slugify(name: string, taken: set<string>) returns (slug: string)
    ensures slug !in taken && LegalSlug(slug)
    ensures var base := BaseOr(name, taken);
            if base !in taken then slug == base
            else exists i | i >= 2 :: slug == Numbered(base, i) && forall j | 2 <= j < i :: Numbered(base, j) in taken
  {
    var base := BaseOr(name, taken);
    BaseOrLegal(name, taken);
    if base !in taken {
      return base;
    }
    forall i: nat, j: nat | Numbered(base, i) == Numbered(base, j) ensures i == j { NumberedInjective(base, i, j); }
    var candidate := (i: nat) => Numbered(base, i);
    var i := FirstFree(candidate, taken);
    forall j: nat | 2 <= j < i ensures Numbered(base, j) in taken { assert candidate(j) in taken; }
    NumberedLegal(base, i);
    return Numbered(base, i);
  }

  /** The search over numbered candidates. */
  method FirstFree(candidate: nat -> string, taken: set<string>) returns (i: nat)
    requires forall i, j | candidate(i) == candidate(j) :: i == j
    ensures i >= 2 && candidate(i) !in taken && forall j | 2 <= j < i :: candidate(j) in taken
  {
    i := 2;
    ghost var seen := {};
    while candidate(i) in taken
      invariant i >= 2 && seen <= taken
      invariant forall j | 2 <= j < i :: candidate(j) in taken
      invariant forall s | s in seen :: exists j | 2 <= j < i :: s == candidate(j)
      decreases |taken - seen|
    {
      assert candidate(i) in taken - seen;
      assert taken - (seen + {candidate(i)}) == (taken - seen) - {candidate(i)};
      seen := seen + {candidate(i)};
      i := i + 1;
    }
  }
}
