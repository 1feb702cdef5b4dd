/**
 * Resource ids and database names derived from a blueprint's names (sdk/src/cloudfall/importer.py),
 * against what an id may be (sdk/src/cloudfall/domain.py).
 */
module Slugs {
  import opened Results

  const SLUG_MAX := 63

  predicate Letter(c: char) { 'a' <= c <= 'z' }

  predicate Plain(c: char) { Letter(c) || '0' <= c <= '9' }

  // ---- Deriving ----

  /** Every character that is not plain replaced by the separator. */
  function Clean(name: string, separator: char): (r: string)
    ensures |r| == |name|
    ensures forall i :: 0 <= i < |r| ==> r[i] == if Plain(name[i]) then name[i] else separator
  {
    seq(|name|, i requires 0 <= i < |name| => if Plain(name[i]) then name[i] else separator)
  }

  /** Each run of separators made one. */
  function Squeeze(text: string, separator: char): string {
    if text == "" then ""
    else if |text| > 1 && text[0] == separator && text[1] == separator then Squeeze(text[1..], separator)
    else [text[0]] + Squeeze(text[1..], separator)
  }

  function StripLeft(text: string, separator: char): string {
    if text != "" && text[0] == separator then StripLeft(text[1..], separator) else text
  }

  function StripRight(text: string, separator: char): string {
    if text != "" && text[|text| - 1] == separator then StripRight(text[..|text| - 1], separator) else text
  }

  function Strip(text: string, separator: char): string {
    StripRight(StripLeft(text, separator), separator)
  }

  function Cut(text: string): string {
    if |text| > SLUG_MAX then text[..SLUG_MAX] else text
  }

  /** `name` is lower-cased already; the separator is `-` for ids and `_` for database names. */
  function Slug(name: string, separator: char): Option<string> {
    var slug := Strip(Cut(Strip(Squeeze(Clean(name, separator), separator), separator)), separator);
    if slug == "" || !Letter(slug[0]) then None else Some(slug)
  }

  // ---- What an id may be ----

  /** Plain characters, and separators that are single and never last. */
  ghost predicate Words(text: string, separator: char) {
    Single(text, separator) && (text != "" ==> text[|text| - 1] != separator)
  }

  /** Plain characters and separators, never two of those together. */
  ghost predicate Single(text: string, separator: char) {
    && Cleaned(text, separator)
    && forall i, j :: 0 <= i < j < |text| && j == i + 1 ==> text[i] != separator || text[j] != separator
  }

  ghost predicate Cleaned(text: string, separator: char) {
    forall i :: 0 <= i < |text| ==> Plain(text[i]) || text[i] == separator
  }

  /** A letter, then words of plain characters joined by single separators; at most 63 characters. */
  ghost predicate IsSlug(text: string, separator: char) {
    && 1 <= |text| <= SLUG_MAX && Letter(text[0]) && Words(text, separator)
  }

  // ---- Steps ----

  lemma {:induction false} SqueezeIsSingle(text: string, separator: char)
    requires Cleaned(text, separator) && !Plain(separator)
    ensures Single(Squeeze(text, separator), separator)
    ensures (text == "" <==> Squeeze(text, separator) == "")
    ensures text != "" ==> Squeeze(text, separator)[0] == text[0]
  {
    if text != "" {
      var rest := Squeeze(text[1..], separator);
      SqueezeIsSingle(text[1..], separator);
      if !(|text| > 1 && text[0] == separator && text[1] == separator) {
        SingleCons(text[0], rest, separator);
      }
    }
  }

  lemma SingleCons(c: char, rest: string, separator: char)
    requires Single(rest, separator) && (Plain(c) || (c == separator && (rest != "" ==> rest[0] != separator)))
    requires !Plain(separator)
    ensures Single([c] + rest, separator)
  {
    var all := [c] + rest;
    forall i, j | 0 <= i < j < |all| && j == i + 1
      ensures all[i] != separator || all[j] != separator
    {
      if i > 0 {
        assert rest[i - 1] != separator || rest[j - 1] != separator;
      }
    }
  }

  lemma {:induction false} StripLeftKeeps(text: string, separator: char)
    requires Single(text, separator)
    ensures Single(StripLeft(text, separator), separator)
    ensures StripLeft(text, separator) != "" ==> StripLeft(text, separator)[0] != separator
    ensures |StripLeft(text, separator)| <= |text|
  {
    if text != "" && text[0] == separator {
      StripLeftKeeps(text[1..], separator);
    }
  }

  lemma {:induction false} StripRightKeeps(text: string, separator: char)
    requires Single(text, separator) && (text != "" ==> text[0] != separator) && !Plain(separator)
    ensures Words(StripRight(text, separator), separator)
    ensures |StripRight(text, separator)| <= |text|
    ensures text != "" ==> StripRight(text, separator) != "" && StripRight(text, separator)[0] == text[0]
  {
    if text != "" && text[|text| - 1] == separator {
      StripRightKeeps(text[..|text| - 1], separator);
    }
  }

  lemma CutKeeps(text: string, separator: char)
    requires Words(text, separator)
    ensures Single(Cut(text), separator) && |Cut(text)| <= SLUG_MAX
  {
  }

  /** What is left before the first letter is looked at, in its two halves. */
  lemma SlugParts(name: string, separator: char) returns (first: string, slug: string)
    requires !Plain(separator)
    ensures first == Strip(Squeeze(Clean(name, separator), separator), separator)
    ensures slug == Strip(Cut(first), separator)
    ensures Words(slug, separator) && |slug| <= SLUG_MAX
    ensures first == StripRight(StripLeft(Squeeze(Clean(name, separator), separator), separator), separator)
    ensures (first == "" <==> slug == "") && (first != "" ==> slug[0] == first[0])
  {
    var squeezed := Squeeze(Clean(name, separator), separator);
    SqueezeIsSingle(Clean(name, separator), separator);
    StripLeftKeeps(squeezed, separator);
    StripRightKeeps(StripLeft(squeezed, separator), separator);
    first := Strip(squeezed, separator);
    CutKeeps(first, separator);
    StripLeftKeeps(Cut(first), separator);
    StripRightKeeps(StripLeft(Cut(first), separator), separator);
    slug := Strip(Cut(first), separator);
    if first != "" {
      assert Cut(first)[0] == first[0] && first[0] != separator;
      assert StripLeft(Cut(first), separator) == Cut(first);
    }
  }

  /** Every derived id is a valid one. */
  lemma SlugsAreValid(name: string, separator: char)
    requires !Plain(separator) && Slug(name, separator).Some?
    ensures IsSlug(Slug(name, separator).value, separator)
  {
    var first, slug := SlugParts(name, separator);
  }

  // ---- Idempotence ----

  lemma {:induction false} SqueezeStays(text: string, separator: char)
    requires Words(text, separator)
    ensures Squeeze(text, separator) == text
  {
    if text != "" {
      SqueezeStays(text[1..], separator);
      assert text == [text[0]] + text[1..];
    }
  }

  /** Exactly the valid ids are derived from themselves. */
  lemma ValidSlugsStay(text: string, separator: char)
    requires !Plain(separator)
    ensures Slug(text, separator) == Some(text) <==> IsSlug(text, separator)
  {
    if IsSlug(text, separator) {
      assert Clean(text, separator) == text;
      SqueezeStays(text, separator);
      assert text[0] != separator && text[|text| - 1] != separator;
      assert Strip(text, separator) == text && Cut(text) == text;
    } else if Slug(text, separator).Some? {
      SlugsAreValid(text, separator);
    }
  }

  // ---- When there is one ----

  lemma {:induction false} StripLeftSqueeze(text: string, separator: char)
    requires Cleaned(text, separator) && !Plain(separator)
    ensures
      var left := StripLeft(Squeeze(text, separator), separator);
      && (left == "" <==> forall i :: 0 <= i < |text| ==> !Plain(text[i]))
      && (left != "" ==> exists i :: FirstPlain(text, i) && left[0] == text[i])
  {
    if text != "" {
      var rest := text[1..];
      StripLeftSqueeze(rest, separator);
      SqueezeIsSingle(text, separator);
      if text[0] == separator {
        if |text| == 1 || text[1] != separator {
          assert Squeeze(text, separator)[1..] == Squeeze(rest, separator);
        } else {
          SqueezeIsSingle(rest, separator);
        }
        assert StripLeft(Squeeze(text, separator), separator) == StripLeft(Squeeze(rest, separator), separator);
        var left := StripLeft(Squeeze(rest, separator), separator);
        if left != "" {
          var i :| FirstPlain(rest, i) && left[0] == rest[i];
          assert FirstPlain(text, i + 1) && text[i + 1] == rest[i];
        } else {
          forall i | 0 <= i < |text|
            ensures !Plain(text[i])
          {
            if i > 0 {
              assert text[i] == rest[i - 1];
            }
          }
        }
      } else {
        assert FirstPlain(text, 0);
      }
    }
  }

  ghost predicate FirstPlain(text: string, i: int) {
    0 <= i < |text| && Plain(text[i]) && forall j :: 0 <= j < i ==> !Plain(text[j])
  }

  /** An id can be derived exactly when the first plain character of the name is a letter. */
  lemma SlugExistsWhen(name: string, separator: char)
    requires !Plain(separator)
    ensures Slug(name, separator).Some? <==> exists i :: FirstPlain(name, i) && Letter(name[i])
  {
    var cleaned := Clean(name, separator);
    var first, slug := SlugParts(name, separator);
    var squeezed := Squeeze(cleaned, separator);
    SqueezeIsSingle(cleaned, separator);
    StripLeftKeeps(squeezed, separator);
    StripRightKeeps(StripLeft(squeezed, separator), separator);
    StripLeftSqueeze(cleaned, separator);
    forall i
      ensures FirstPlain(cleaned, i) <==> FirstPlain(name, i)
    {
    }
    var left := StripLeft(squeezed, separator);
    if left != "" {
      var i :| FirstPlain(cleaned, i) && left[0] == cleaned[i];
      assert FirstPlain(name, i) && name[i] == cleaned[i] == slug[0];
      forall k | FirstPlain(name, k)
        ensures k == i
      {
      }
    } else {
      forall i
        ensures !FirstPlain(name, i)
      {
        if 0 <= i < |name| {
          assert !Plain(cleaned[i]);
        }
      }
    }
  }

  // ---- Claiming ----

  datatype ImportError = NameInvalid | NameCollision

  class ImportState {
    var usedIds: set<string>
    ghost var claimed: seq<string>

    ghost predicate Valid()
      reads this
    {
      && (forall id :: id in usedIds <==> id in claimed)
      && forall i, j :: 0 <= i < j < |claimed| ==> claimed[i] != claimed[j]
    }

    constructor ()
      ensures Valid() && claimed == []
    {
      usedIds, claimed := {}, [];
    }

    /** Claims an id for one subject; a taken one is refused. */
    method ClaimId(slug: string) returns (ok: bool)
      requires Valid()
      modifies this
      ensures Valid()
      ensures ok <==> slug !in old(claimed)
      ensures claimed == if ok then old(claimed) + [slug] else old(claimed)
    {
      if slug in usedIds {
        return false;
      }
      usedIds := usedIds + {slug};
      claimed := claimed + [slug];
      ok := true;
    }

    /**
     * Derives and claims an id for each name after those claimed already, as domains come after
     * components; it stops at the first that has none or a taken one.
     */
    method ClaimAll(names: seq<string>) returns (refused: Option<ImportError>, ghost done: nat)
      requires Valid()
      modifies this
      ensures Valid()
      ensures done <= |names| && |claimed| == |old(claimed)| + done && old(claimed) <= claimed
      ensures forall i :: 0 <= i < done ==> Slug(names[i], '-') == Some(claimed[|old(claimed)| + i])
      ensures refused.None? ==> done == |names|
      ensures refused.Some? ==>
        && done < |names|
        && var slug := Slug(names[done], '-');
           (refused == Some(NameInvalid) <==> slug.None?) && (slug.Some? ==> slug.value in claimed)
    {
      hide Slug;
      done := 0;
      for i := 0 to |names|
        invariant Valid() && done == i && |claimed| == |old(claimed)| + i && old(claimed) <= claimed
        invariant forall k :: 0 <= k < i ==> Slug(names[k], '-') == Some(claimed[|old(claimed)| + k])
      {
        var slug := Slug(names[i], '-');
        if slug.None? {
          return Some(NameInvalid), i;
        }
        var ok := ClaimId(slug.value);
        if !ok {
          return Some(NameCollision), i;
        }
        done := i + 1;
      }
      refused := None;
    }
  }
}
