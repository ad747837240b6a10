/**
 * The slug rule used by the tag and post seeders:
 * `s.toLowerCase().replace(/[^a-z0-9]+/g, '-').replace(/(^-|-$)/g, '')`.
 */
module Slug {
  import opened Seqs
  import opened Text

  /** Characters of the class `[a-z0-9]`. */
  predicate IsSlugChar(c: char) {
    IsAsciiLower(c) || IsAsciiDigit(c)
  }

  predicate NotDash(c: char) {
    c != '-'
  }

  /**
   * `replace(/[^a-z0-9]+/g, '-')`: every maximal run of characters outside `[a-z0-9]` becomes
   * one '-'. `inRun` says the previous character already belonged to such a run.
   */
  function CollapseRuns(s: string, inRun: bool): string {
    if s == [] then ""
    else if IsSlugChar(s[0]) then [s[0]] + CollapseRuns(s[1..], false)
    else if inRun then CollapseRuns(s[1..], true)
    else "-" + CollapseRuns(s[1..], true)
  }

  /** `replace(/(^-|-$)/g, '')`: drop one leading '-' and then one trailing '-'. */
  function TrimDashes(t: string): string {
    var a := if |t| > 0 && t[0] == '-' then t[1..] else t;
    if |a| > 0 && a[|a| - 1] == '-' then a[..|a| - 1] else a
  }

  function Slugify(s: string): string {
    TrimDashes(CollapseRuns(Lower(s), false))
  }

  predicate SlugAlphabet(t: string) {
    forall i :: 0 <= i < |t| ==> IsSlugChar(t[i]) || t[i] == '-'
  }

  predicate NoDoubleDash(t: string) {
    forall i :: 0 <= i < |t| - 1 ==> !(t[i] == '-' && t[i + 1] == '-')
  }

  /** The shape of every slug: alphabet `[a-z0-9-]`, no '-' at either end, no "--". */
  predicate IsSlug(t: string) {
    && SlugAlphabet(t)
    && (|t| > 0 ==> t[0] != '-' && t[|t| - 1] != '-')
    && NoDoubleDash(t)
  }

  lemma {:induction false} CollapseShape(s: string, inRun: bool)
    ensures SlugAlphabet(CollapseRuns(s, inRun))
    ensures NoDoubleDash(CollapseRuns(s, inRun))
    ensures inRun && |CollapseRuns(s, inRun)| > 0 ==> CollapseRuns(s, inRun)[0] != '-'
  {
    if s != [] {
      if IsSlugChar(s[0]) {
        CollapseShape(s[1..], false);
      } else {
        CollapseShape(s[1..], true);
      }
    }
  }

  lemma TrimShape(t: string)
    requires SlugAlphabet(t) && NoDoubleDash(t)
    ensures IsSlug(TrimDashes(t))
  {
    var a := if |t| > 0 && t[0] == '-' then t[1..] else t;
    assert |a| > 0 ==> a[0] != '-' by {
      if |t| > 1 && t[0] == '-' {
        assert !(t[0] == '-' && t[1] == '-');
      }
    }
    assert SlugAlphabet(a) && NoDoubleDash(a);
    if |a| > 1 && a[|a| - 1] == '-' {
      assert a[|a| - 2] != '-';
    }
  }

  /** Every slug has the shape `IsSlug`. */
  lemma SlugifyShape(s: string)
    ensures IsSlug(Slugify(s))
  {
    CollapseShape(Lower(s), false);
    TrimShape(CollapseRuns(Lower(s), false));
  }

  lemma {:induction false} CollapseKeepsSlugChars(s: string, inRun: bool)
    ensures Filter(NotDash, CollapseRuns(s, inRun)) == Filter(IsSlugChar, s)
  {
    if s != [] {
      if IsSlugChar(s[0]) {
        CollapseKeepsSlugChars(s[1..], false);
        var c := CollapseRuns(s, inRun);
        assert c[0] == s[0] && c[1..] == CollapseRuns(s[1..], false);
      } else {
        CollapseKeepsSlugChars(s[1..], true);
        if !inRun {
          var c := CollapseRuns(s, inRun);
          assert c[0] == '-' && c[1..] == CollapseRuns(s[1..], true);
        }
      }
    }
  }

  lemma TrimKeepsNonDashes(t: string)
    ensures Filter(NotDash, TrimDashes(t)) == Filter(NotDash, t)
  {
    var a := if |t| > 0 && t[0] == '-' then t[1..] else t;
    assert Filter(NotDash, a) == Filter(NotDash, t);
    if |a| > 0 && a[|a| - 1] == '-' {
      assert a == a[..|a| - 1] + [a[|a| - 1]];
      FilterAppend(NotDash, a[..|a| - 1], [a[|a| - 1]]);
    }
  }

  /** Deleting the '-' characters of a slug leaves exactly the `[a-z0-9]` characters of the lower-cased input, in order. */
  lemma SlugifyKeepsContent(s: string)
    ensures Filter(NotDash, Slugify(s)) == Filter(IsSlugChar, Lower(s))
  {
    TrimKeepsNonDashes(CollapseRuns(Lower(s), false));
    CollapseKeepsSlugChars(Lower(s), false);
  }

  lemma {:induction false} CollapseFixesSlugs(t: string, inRun: bool)
    requires SlugAlphabet(t) && NoDoubleDash(t)
    requires inRun && |t| > 0 ==> t[0] != '-'
    ensures CollapseRuns(t, inRun) == t
  {
    if t != [] {
      assert SlugAlphabet(t[1..]) && NoDoubleDash(t[1..]);
      if IsSlugChar(t[0]) {
        CollapseFixesSlugs(t[1..], false);
      } else {
        assert |t| > 1 ==> t[1] != '-';
        CollapseFixesSlugs(t[1..], true);
        assert t == "-" + t[1..];
      }
    }
  }

  /** A string that already has the slug shape is its own slug. */
  lemma SlugifyFixesSlugs(t: string)
    requires IsSlug(t)
    ensures Slugify(t) == t
  {
    LowerOfLower(t);
    CollapseFixesSlugs(t, false);
  }

  /** Slugging twice is slugging once. */
  lemma SlugifyIdempotent(s: string)
    ensures Slugify(Slugify(s)) == Slugify(s)
  {
    SlugifyShape(s);
    SlugifyFixesSlugs(Slugify(s));
  }
}
