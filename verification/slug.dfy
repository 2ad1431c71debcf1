/**
 * `generateSlug` of the blog post form: lowercase the title, turn every run
 * of characters outside `[a-z0-9]` into one `-`, then drop a `-` at either
 * end.
 */
module Slug {
  import opened Text

  /** The characters the separator regex `[^a-z0-9]` does not match. */
  predicate IsAlnum(c: char) {
    'a' <= c <= 'z' || '0' <= c <= '9'
  }

  predicate IsSlugChar(c: char) {
    IsAlnum(c) || c == '-'
  }

  /** No two separators in a row. */
  predicate NoDoubleDash(s: string) {
    forall i :: 0 <= i < |s| - 1 ==> !(s[i] == '-' && s[i + 1] == '-')
  }

  /** A well-formed slug: lowercase letters, digits and single inner dashes. */
  predicate IsSlug(s: string) {
    && (forall i :: 0 <= i < |s| ==> IsSlugChar(s[i]))
    && NoDoubleDash(s)
    && (s == "" || (s[0] != '-' && s[|s| - 1] != '-'))
  }

  /** The letters and digits of `s`, in order. */
  function Alnums(s: string): (r: string)
    ensures |r| <= |s|
    ensures forall i :: 0 <= i < |r| ==> IsAlnum(r[i])
  {
    if |s| == 0 then ""
    else if IsAlnum(s[0]) then [s[0]] + Alnums(s[1..])
    else Alnums(s[1..])
  }

  lemma {:induction false} AlnumsAppend(a: string, b: string)
    ensures Alnums(a + b) == Alnums(a) + Alnums(b)
  {
    if |a| > 0 {
      AlnumsAppend(a[1..], b);
      assert (a + b)[1..] == a[1..] + b;
    } else {
      assert a + b == b;
    }
  }

  /** `.replace(/[^a-z0-9]+/g, '-')`; `inRun` records that the previous
      character already belonged to a separator run. */
  function Dashify(s: string, inRun: bool): string
  {
    if |s| == 0 then ""
    else if IsAlnum(s[0]) then [s[0]] + Dashify(s[1..], false)
    else if inRun then Dashify(s[1..], true)
    else "-" + Dashify(s[1..], true)
  }

  /** The replacement leaves slug characters only, never two dashes in a
      row, and no leading dash after an open run. */
  lemma {:induction false} DashifyShape(s: string, inRun: bool)
    ensures forall i :: 0 <= i < |Dashify(s, inRun)| ==> IsSlugChar(Dashify(s, inRun)[i])
    ensures NoDoubleDash(Dashify(s, inRun))
    ensures inRun ==> Dashify(s, inRun) == "" || Dashify(s, inRun)[0] != '-'
  {
    if |s| > 0 {
      DashifyShape(s[1..], !IsAlnum(s[0]));
    }
  }

  /** The replacement keeps every letter and digit, in order. */
  lemma {:induction false} DashifyAlnums(s: string, inRun: bool)
    ensures Alnums(Dashify(s, inRun)) == Alnums(s)
  {
    if |s| > 0 {
      var rest := Dashify(s[1..], !IsAlnum(s[0]));
      DashifyAlnums(s[1..], !IsAlnum(s[0]));
      assert s == [s[0]] + s[1..];
      AlnumsAppend([s[0]], s[1..]);
      if IsAlnum(s[0]) {
        AlnumsAppend([s[0]], rest);
      } else if !inRun {
        AlnumsAppend("-", rest);
      }
    }
  }

  /** `.replace(/(^-|-$)/g, '')`. */
  function StripEdgeDashes(s: string): string
  {
    var a := if |s| > 0 && s[0] == '-' then s[1..] else s;
    if |a| > 0 && a[|a| - 1] == '-' then a[..|a| - 1] else a
  }

  /** Without double dashes in the input, the stripped text has none and
      neither starts nor ends with a dash. */
  lemma StripEdgeDashesShape(s: string)
    requires NoDoubleDash(s)
    ensures var r := StripEdgeDashes(s);
            && NoDoubleDash(r)
            && (r == "" || (r[0] != '-' && r[|r| - 1] != '-'))
  {
  }

  /** Only dashes are removed: the letters and digits stay, and nothing new
      appears. */
  lemma StripEdgeDashesKeeps(s: string)
    ensures Alnums(StripEdgeDashes(s)) == Alnums(s)
    ensures forall i :: 0 <= i < |StripEdgeDashes(s)| ==> StripEdgeDashes(s)[i] in s
  {
    var a := if |s| > 0 && s[0] == '-' then s[1..] else s;
    if |s| > 0 && s[0] == '-' {
      assert s == [s[0]] + a;
      AlnumsAppend([s[0]], a);
    }
    if |a| > 0 && a[|a| - 1] == '-' {
      assert a == a[..|a| - 1] + [a[|a| - 1]];
      AlnumsAppend(a[..|a| - 1], [a[|a| - 1]]);
    }
  }

  /** `generateSlug(title)` (components/blog-post-form.tsx:46-51). */
  function GenerateSlug(title: string): (r: string)
    ensures IsSlug(r)
    ensures Alnums(r) == Alnums(Lower(title))
  {
    var d := Dashify(Lower(title), false);
    DashifyShape(Lower(title), false);
    DashifyAlnums(Lower(title), false);
    StripEdgeDashesShape(d);
    StripEdgeDashesKeeps(d);
    var r := StripEdgeDashes(d);
    assert forall i :: 0 <= i < |r| ==> IsSlugChar(r[i]);
    r
  }

  /** A slug without letters or digits is empty. */
  lemma NoAlnumsEmptySlug(s: string)
    requires IsSlug(s) && Alnums(s) == ""
    ensures s == ""
  {
  }

  /** A title with no ASCII letter or digit slugs to the empty string. */
  lemma EmptySlugWithoutAlnums(title: string)
    ensures GenerateSlug(title) == "" <==> Alnums(Lower(title)) == ""
  {
    if Alnums(Lower(title)) == "" {
      NoAlnumsEmptySlug(GenerateSlug(title));
    }
  }

  lemma {:induction false} DashifyKeepsSlugText(s: string, inRun: bool)
    requires forall i :: 0 <= i < |s| ==> IsSlugChar(s[i])
    requires NoDoubleDash(s)
    requires inRun ==> s == "" || s[0] != '-'
    ensures Dashify(s, inRun) == s
  {
    if |s| > 0 {
      DashifyKeepsSlugText(s[1..], !IsAlnum(s[0]));
      assert s == [s[0]] + s[1..];
    }
  }

  /** Exactly the well-formed slugs are left unchanged by `generateSlug`. */
  lemma SlugFixpoint(s: string)
    ensures GenerateSlug(s) == s <==> IsSlug(s)
  {
    if IsSlug(s) {
      assert Lower(s) == s;
      DashifyKeepsSlugText(s, false);
    }
  }

  // ---------------------------------------------------------------------------
  // Where the dashes go
  // ---------------------------------------------------------------------------

  /** A lowercased word: letters and digits only, at least one. */
  predicate IsWord(x: string) {
    x != "" && forall k :: 0 <= k < |x| ==> IsAlnum(x[k])
  }

  /** A separator run: no letter or digit, at least one character. */
  predicate IsGap(y: string) {
    y != "" && forall k :: 0 <= k < |y| ==> !IsAlnum(y[k])
  }

  /** A word passes through the dash replacement unchanged. */
  lemma {:induction false} DashifyWord(x: string, s: string, inRun: bool)
    requires IsWord(x)
    ensures Dashify(x + s, inRun) == x + Dashify(s, false)
  {
    assert (x + s)[1..] == x[1..] + s;
    if |x| == 1 {
      assert x[1..] + s == s;
    } else {
      DashifyWord(x[1..], s, false);
      assert x == [x[0]] + x[1..];
    }
  }

  /** A whole separator run becomes one dash, or none when a run is already
      open. */
  lemma {:induction false} DashifyGap(y: string, s: string, inRun: bool)
    requires IsGap(y)
    ensures Dashify(y + s, inRun) == (if inRun then "" else "-") + Dashify(s, true)
  {
    assert (y + s)[1..] == y[1..] + s;
    if |y| == 1 {
      assert y[1..] + s == s;
    } else {
      DashifyGap(y[1..], s, true);
    }
  }

  /** Starting outside a run adds at most one leading dash. */
  lemma DashifyStart(z: string)
    ensures Dashify(z, false) == Dashify(z, true) || Dashify(z, false) == "-" + Dashify(z, true)
  {
  }

  lemma StripLeadingDash(d: string)
    requires d == "" || d[0] != '-'
    ensures StripEdgeDashes("-" + d) == StripEdgeDashes(d)
  {
    assert ("-" + d)[1..] == d;
  }

  lemma StripAfterWord(x: string, d: string)
    requires IsWord(x) && (d == "" || d[0] != '-')
    ensures StripEdgeDashes(x + "-" + d)
            == x + (if StripEdgeDashes(d) == "" then "" else "-" + StripEdgeDashes(d))
  {
    var s := x + "-" + d;
    assert s[0] == x[0];
    if d == "" {
      assert s[..|s| - 1] == x;
    } else if d[|d| - 1] == '-' {
      assert s[|s| - 1] == '-';
      assert s[..|s| - 1] == x + "-" + d[..|d| - 1];
    } else {
      assert s[|s| - 1] == d[|d| - 1];
    }
  }

  /** The slug of a title is the slug of what follows its leading separators. */
  lemma LeadingGapIgnored(w: string, t: string)
    requires IsGap(Lower(w))
    ensures GenerateSlug(w + t) == GenerateSlug(t)
  {
    var z := Lower(t);
    var d := Dashify(z, true);
    LowerAppend(w, t);
    DashifyGap(Lower(w), z, false);
    DashifyShape(z, true);
    DashifyStart(z);
    StripLeadingDash(d);
  }

  /** A title made of one word slugs to that word, lowercased. */
  lemma WordIsItsSlug(a: string)
    requires IsWord(Lower(a))
    ensures GenerateSlug(a) == Lower(a)
  {
    DashifyWord(Lower(a), "", false);
    assert Lower(a) + "" == Lower(a);
  }

  /** A word followed by a separator run: the word, then one dash, then the
      slug of the rest; the dash is dropped when the rest has no letter or
      digit. With `LeadingGapIgnored` and `WordIsItsSlug` this fixes the slug
      of every title: its lowercased words joined by single dashes. */
  lemma WordThenGap(a: string, w: string, t: string)
    requires IsWord(Lower(a)) && IsGap(Lower(w))
    ensures GenerateSlug(a + w + t)
            == Lower(a) + (if GenerateSlug(t) == "" then "" else "-" + GenerateSlug(t))
  {
    var x, y, z := Lower(a), Lower(w), Lower(t);
    var d := Dashify(z, true);
    LowerAppend(a, w + t);
    LowerAppend(w, t);
    assert a + w + t == a + (w + t);
    DashifyWord(x, y + z, false);
    DashifyGap(y, z, false);
    assert Dashify(x + (y + z), false) == x + "-" + d;
    DashifyShape(z, true);
    StripAfterWord(x, d);
    DashifyStart(z);
    StripLeadingDash(d);
  }

  /** Two words around any separator run slug to the two words joined by a
      single dash. */
  lemma TwoWords(a: string, w: string, b: string)
    requires IsWord(Lower(a)) && IsGap(Lower(w)) && IsWord(Lower(b))
    ensures GenerateSlug(a + w + b) == Lower(a) + "-" + Lower(b)
  {
    WordThenGap(a, w, b);
    WordIsItsSlug(b);
  }

  /** Slugging a slug changes nothing: `generateSlug` is idempotent. */
  lemma SlugIdempotent(title: string)
    ensures GenerateSlug(GenerateSlug(title)) == GenerateSlug(title)
  {
    SlugFixpoint(GenerateSlug(title));
  }
}
