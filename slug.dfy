/**
 * `generateSlug`, written out identically in the brand, product and
 * brand-category creation forms: lower-case, trim, drop every character
 * outside `[\w\s-]`, turn each run of white space into `-`, then collapse
 * each run of `-` into one.
 */
module Slug {
  import opened Text

  predicate IsUpper(c: char) { 'A' <= c <= 'Z' }

  /** The regular-expression class `\w` (no `u` flag): ASCII letters, digits and `_`. */
  predicate IsWordChar(c: char) {
    'a' <= c <= 'z' || IsUpper(c) || '0' <= c <= '9' || c == '_'
  }

  /** The characters that survive `.replace(/[^\w\s-]/g, '')`. */
  predicate IsKept(c: char) {
    IsWordChar(c) || IsSpace(c) || c == '-'
  }

  predicate IsHyphen(c: char) { c == '-' }

  /** A character a generated slug may contain: `[a-z0-9_-]`. */
  predicate IsSlugChar(c: char) {
    'a' <= c <= 'z' || '0' <= c <= '9' || c == '_' || c == '-'
  }

  predicate IsSlugText(s: string) {
    forall i :: 0 <= i < |s| ==> IsSlugChar(s[i])
  }

  predicate NoDoubleHyphen(s: string) {
    forall i :: 0 <= i < |s| - 1 ==> !(s[i] == '-' && s[i + 1] == '-')
  }

  predicate NoUpper(s: string) {
    forall i :: 0 <= i < |s| ==> !IsUpper(s[i])
  }

  /** `toLowerCase` on one character, restricted to ASCII. */
  function LowerChar(c: char): (d: char)
    ensures !IsUpper(d)
    ensures !IsUpper(c) ==> d == c
    ensures IsUpper(c) ==> d as int == c as int + 32
  {
    if IsUpper(c) then (c as int + 32) as char else c
  }

  /** `s.toLowerCase()`, character by character. */
  function Lower(s: string): (r: string)
    ensures |r| == |s|
    ensures forall i :: 0 <= i < |s| ==> r[i] == LowerChar(s[i])
    ensures NoUpper(r)
  {
    seq(|s|, i requires 0 <= i < |s| => LowerChar(s[i]))
  }

  /** `s.replace(/[^\w\s-]/g, '')`: the subsequence of kept characters. */
  function StripDisallowed(s: string): (r: string)
    ensures |r| <= |s|
    ensures forall i :: 0 <= i < |r| ==> IsKept(r[i]) && r[i] in s
    ensures (forall i :: 0 <= i < |s| ==> IsKept(s[i])) ==> r == s
    ensures |s| == 1 ==> r == if IsKept(s[0]) then s else []
  {
    if s == [] then []
    else (if IsKept(s[0]) then [s[0]] else []) + StripDisallowed(s[1..])
  }

  /**
   * Stripping works character by character: with the one-character case of
   * its contract, every kept character survives, in order, and no other.
   */
  lemma {:induction false} StripConcat(a: string, b: string)
    ensures StripDisallowed(a + b) == StripDisallowed(a) + StripDisallowed(b)
    decreases |a|
  {
    if a != [] {
      assert (a + b)[1..] == a[1..] + b;
      StripConcat(a[1..], b);
    } else {
      assert a + b == b;
    }
  }

  /** Drops the leading run of characters that satisfy `inRun`. */
  function DropRun(s: string, inRun: char -> bool): (r: string)
    ensures |r| <= |s| && r == s[|s| - |r|..]
    ensures r != [] ==> !inRun(r[0])
  {
    if s != [] && inRun(s[0]) then DropRun(s[1..], inRun) else s
  }

  /**
   * `s.replace(/P+/g, rep)` for a character class P given as `inRun`: every
   * maximal run of characters in the class becomes the single character `rep`.
   */
  function Squeeze(s: string, inRun: char -> bool, rep: char): (r: string)
    ensures forall i :: 0 <= i < |r| ==> r[i] == rep || (r[i] in s && !inRun(r[i]))
    ensures s == [] <==> r == []
    ensures s != [] ==> r[0] == if inRun(s[0]) then rep else s[0]
    decreases |s|
  {
    if s == [] then []
    else if inRun(s[0]) then [rep] + Squeeze(DropRun(s[1..], inRun), inRun, rep)
    else [s[0]] + Squeeze(s[1..], inRun, rep)
  }

  /** A character outside the class is copied. */
  lemma SqueezeOther(c: char, s: string, inRun: char -> bool, rep: char)
    requires !inRun(c)
    ensures Squeeze([c] + s, inRun, rep) == [c] + Squeeze(s, inRun, rep)
  {
    assert ([c] + s)[1..] == s;
  }

  /**
   * A maximal run (a non-empty block of class characters not followed by
   * another) becomes exactly one `rep`. With `SqueezeOther` this fixes the
   * output of every text, split into its runs and other characters.
   */
  lemma SqueezeRun(w: string, s: string, inRun: char -> bool, rep: char)
    requires w != [] && forall i :: 0 <= i < |w| ==> inRun(w[i])
    requires s == [] || !inRun(s[0])
    ensures Squeeze(w + s, inRun, rep) == [rep] + Squeeze(s, inRun, rep)
  {
    assert (w + s)[1..] == w[1..] + s;
    DropRunBlock(w[1..], s, inRun);
  }

  lemma {:induction false} DropRunBlock(w: string, s: string, inRun: char -> bool)
    requires forall i :: 0 <= i < |w| ==> inRun(w[i])
    requires s == [] || !inRun(s[0])
    ensures DropRun(w + s, inRun) == s
    decreases |w|
  {
    if w == [] {
      assert w + s == s;
    } else {
      assert (w + s)[1..] == w[1..] + s;
      DropRunBlock(w[1..], s, inRun);
    }
  }

  predicate NoAdjacent(r: string, inRun: char -> bool) {
    forall i :: 0 <= i < |r| - 1 ==> !(inRun(r[i]) && inRun(r[i + 1]))
  }

  /** When `rep` is itself in the class, the output never holds two class characters in a row. */
  lemma {:induction false} SqueezeNoAdjacent(s: string, inRun: char -> bool, rep: char)
    requires inRun(rep)
    ensures NoAdjacent(Squeeze(s, inRun, rep), inRun)
    decreases |s|
  {
    if s != [] {
      var rest := if inRun(s[0]) then DropRun(s[1..], inRun) else s[1..];
      var head := if inRun(s[0]) then rep else s[0];
      SqueezeNoAdjacent(rest, inRun, rep);
      var tail := Squeeze(rest, inRun, rep);
      assert Squeeze(s, inRun, rep) == [head] + tail;
      assert tail != [] && inRun(head) ==> !inRun(tail[0]);
      var r := [head] + tail;
      forall i | 0 <= i < |r| - 1 ensures !(inRun(r[i]) && inRun(r[i + 1])) {
        if i > 0 {
          assert r[i] == tail[i - 1] && r[i + 1] == tail[i];
          assert !(inRun(tail[i - 1]) && inRun(tail[i]));
        }
      }
    }
  }

  /** A text with no two class characters in a row, each of them `rep`, is left as it is. */
  lemma {:induction false} SqueezeIdentity(s: string, inRun: char -> bool, rep: char)
    requires forall i :: 0 <= i < |s| && inRun(s[i]) ==> s[i] == rep
    requires forall i :: 0 <= i < |s| - 1 ==> !(inRun(s[i]) && inRun(s[i + 1]))
    ensures Squeeze(s, inRun, rep) == s
    decreases |s|
  {
    if s == [] {
    } else {
      SqueezeIdentity(s[1..], inRun, rep);
      if inRun(s[0]) {
        assert |s| > 1 ==> !inRun(s[1]);
        assert DropRun(s[1..], inRun) == s[1..];
      }
    }
  }

  /** `generateSlug(name)`: the output uses only `[a-z0-9_-]` and never has `--`. */
  function GenerateSlug(name: string): (slug: string)
    ensures IsSlugText(slug)
    ensures NoDoubleHyphen(slug)
  {
    var trimmed := Trim(Lower(name));
    var kept := StripDisallowed(trimmed);
    var hyphenated := Squeeze(kept, IsSpace, '-');
    var slug := Squeeze(hyphenated, IsHyphen, '-');
    SlugStages(name, trimmed, kept, hyphenated, slug);
    slug
  }

  lemma SlugStages(name: string, trimmed: string, kept: string, hyphenated: string, slug: string)
    requires trimmed == Trim(Lower(name))
    requires kept == StripDisallowed(trimmed)
    requires hyphenated == Squeeze(kept, IsSpace, '-')
    requires slug == Squeeze(hyphenated, IsHyphen, '-')
    ensures IsSlugText(slug) && NoDoubleHyphen(slug)
  {
    TrimKeepsNoUpper(Lower(name));
    KeptChars(trimmed);
    HyphenatedChars(kept);
    assert IsSlugText(slug);
    SqueezeNoAdjacent(hyphenated, IsHyphen, '-');
  }

  lemma TrimKeepsNoUpper(s: string)
    requires NoUpper(s)
    ensures NoUpper(Trim(s))
  {
    var t := Trim(s);
    var k := |s| - |TrimStart(s)|;
    TrimSlice(s);
    forall i | 0 <= i < |t| ensures !IsUpper(t[i]) {
      assert t[i] == s[k + i];
    }
  }

  lemma KeptChars(s: string)
    requires NoUpper(s)
    ensures var r := StripDisallowed(s);
      forall i :: 0 <= i < |r| ==> IsKept(r[i]) && !IsUpper(r[i])
  {
    var r := StripDisallowed(s);
    forall i | 0 <= i < |r| ensures !IsUpper(r[i]) {
      var j :| 0 <= j < |s| && s[j] == r[i];
    }
  }

  lemma HyphenatedChars(s: string)
    requires forall i :: 0 <= i < |s| ==> IsKept(s[i]) && !IsUpper(s[i])
    ensures IsSlugText(Squeeze(s, IsSpace, '-'))
  {
    var r := Squeeze(s, IsSpace, '-');
    forall i | 0 <= i < |r| ensures IsSlugChar(r[i]) {
      if r[i] != '-' {
        var j :| 0 <= j < |s| && s[j] == r[i];
      }
    }
  }

  /** A slug is already in normal form: `generateSlug` leaves it unchanged. */
  lemma SlugFixpoint(t: string)
    requires IsSlugText(t) && NoDoubleHyphen(t)
    ensures GenerateSlug(t) == t
  {
    assert Lower(t) == t;
    assert NoSpace(t);
    TrimNoSpace(t);
    assert StripDisallowed(t) == t;
    SqueezeIdentity(t, IsSpace, '-');
    SqueezeIdentity(t, IsHyphen, '-');
  }

  /** `generateSlug(generateSlug(s)) == generateSlug(s)`. */
  lemma GenerateSlugIdempotent(name: string)
    ensures GenerateSlug(GenerateSlug(name)) == GenerateSlug(name)
  {
    SlugFixpoint(GenerateSlug(name));
  }

  /** A name with no letter, digit, `_`, `-` or white space yields the empty slug. */
  lemma NothingKeptEmptySlug(name: string)
    requires forall i :: 0 <= i < |name| ==> !IsKept(name[i])
    ensures GenerateSlug(name) == []
  {
    assert Lower(name) == name;
    assert NoSpace(name);
    TrimNoSpace(name);
  }
}
