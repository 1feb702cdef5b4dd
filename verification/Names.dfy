/** Host and file names in the order a directory listing is sorted in. */
module Names {
  predicate Less(a: string, b: string) {
    b != "" && (a == "" || a[0] < b[0] || (a[0] == b[0] && Less(a[1..], b[1..])))
  }

  lemma {:induction false} LessTransitive(a: string, b: string, c: string)
    requires Less(a, b) && Less(b, c)
    ensures Less(a, c)
  {
    if a != "" && a[0] == b[0] == c[0] {
      LessTransitive(a[1..], b[1..], c[1..]);
    }
  }

  lemma {:induction false} LessTotal(a: string, b: string)
    ensures a == b || Less(a, b) || Less(b, a)
    ensures Less(a, b) ==> a != b && !Less(b, a)
  {
    if a != "" && b != "" && a[0] == b[0] {
      LessTotal(a[1..], b[1..]);
      assert a == [a[0]] + a[1..] && b == [b[0]] + b[1..];
    }
  }

  ghost predicate IsFirst(names: set<string>, name: string) {
    name in names && forall other :: other in names ==> other == name || Less(name, other)
  }

  /** In strictly growing order, so without repetition. */
  ghost predicate Sorted(names: seq<string>) {
    forall i, j :: 0 <= i < j < |names| ==> Less(names[i], names[j])
  }

  function Members(names: seq<string>): set<string> {
    set name | name in names
  }

  ghost predicate Lists(names: seq<string>, members: set<string>) {
    Sorted(names) && Members(names) == members
  }

  lemma MembersOf(names: seq<string>)
    ensures Members(names) == {} <==> names == []
    ensures names != [] ==> names[0] in Members(names)
  {
    if names != [] {
      assert names[0] in Members(names);
    }
  }

  lemma FirstIsFirst(names: seq<string>)
    requires Sorted(names) && names != []
    ensures IsFirst(Members(names), names[0])
  {
  }

  lemma RestOf(names: seq<string>)
    requires Sorted(names) && names != []
    ensures Members(names[1..]) == Members(names) - {names[0]}
  {
    forall name
      ensures name in names[1..] <==> name in names && name != names[0]
    {
      if name in names[1..] {
        var k :| 0 <= k < |names[1..]| && names[1..][k] == name;
        assert Less(names[0], names[k + 1]);
        LessTotal(names[0], name);
      }
      if name in names && name != names[0] {
        var k :| 0 <= k < |names| && names[k] == name;
        assert names[1..][k - 1] == name;
      }
    }
  }

  /** A set of names has one sorted listing. */
  lemma {:induction false} SortedUnique(a: seq<string>, b: seq<string>)
    requires Sorted(a) && Sorted(b) && Members(a) == Members(b)
    ensures a == b
    decreases |a|
  {
    MembersOf(a);
    MembersOf(b);
    if a != [] {
      FirstIsFirst(a);
      FirstIsFirst(b);
      LessTotal(a[0], b[0]);
      RestOf(a);
      RestOf(b);
      SortedUnique(a[1..], b[1..]);
      assert a == [a[0]] + a[1..] && b == [b[0]] + b[1..];
    }
  }

  // ---- Other orders ----

  /** What a name is sorted by: a first key, and a second one among names whose first is the same. */
  datatype Rank = Rank(first: string, second: string)

  predicate RankLess(a: Rank, b: Rank) {
    Less(a.first, b.first) || (a.first == b.first && Less(a.second, b.second))
  }

  lemma RankTransitive(a: Rank, b: Rank, c: Rank)
    requires RankLess(a, b) && RankLess(b, c)
    ensures RankLess(a, c)
  {
    if Less(a.first, b.first) && Less(b.first, c.first) {
      LessTransitive(a.first, b.first, c.first);
    }
    if Less(a.second, b.second) && Less(b.second, c.second) {
      LessTransitive(a.second, b.second, c.second);
    }
  }

  lemma RankTotal(a: Rank, b: Rank)
    ensures a == b || RankLess(a, b) || RankLess(b, a)
    ensures !RankLess(a, a)
  {
    LessTotal(a.first, b.first);
    LessTotal(a.second, b.second);
    LessTotal(a.first, a.first);
    LessTotal(a.second, a.second);
  }

  ghost predicate Ranks(names: set<string>, rank: string -> Rank) {
    forall a, b :: a in names && b in names && rank(a) == rank(b) ==> a == b
  }

  ghost predicate RankedBy(names: seq<string>, rank: string -> Rank) {
    forall i, j :: 0 <= i < j < |names| ==> RankLess(rank(names[i]), rank(names[j]))
  }

  lemma {:induction false} LeastExists(names: set<string>, rank: string -> Rank) returns (least: string)
    requires names != {} && Ranks(names, rank)
    ensures least in names && forall other :: other in names ==> other == least || RankLess(rank(least), rank(other))
  {
    var name :| name in names;
    least := name;
    if names != {name} {
      var rest := LeastExists(names - {name}, rank);
      RankTotal(rank(name), rank(rest));
      least := if RankLess(rank(name), rank(rest)) then name else rest;
      forall other | other in names && other != least
        ensures RankLess(rank(least), rank(other))
      {
        if least == name && other != rest {
          assert other in names - {name};
          RankTransitive(rank(name), rank(rest), rank(other));
        }
      }
    }
  }

  /** The names in the order of their ranks. */
  method SortBy(members: set<string>, rank: string -> Rank) returns (names: seq<string>)
    requires Ranks(members, rank)
    ensures RankedBy(names, rank) && Members(names) == members
  {
    names := [];
    var left := members;
    while left != {}
      invariant left <= members && Members(names) == members - left
      invariant RankedBy(names, rank)
      invariant forall k, name :: 0 <= k < |names| && name in left ==> RankLess(rank(names[k]), rank(name))
      decreases left
    {
      ghost var least := LeastExists(left, rank);
      var name :| name in left && forall other :: other in left ==> other == name || RankLess(rank(name), rank(other));
      assert forall n :: n in names + [name] <==> n in names || n == name;
      assert Members(names + [name]) == Members(names) + {name};
      assert members - (left - {name}) == (members - left) + {name};
      names := names + [name];
      left := left - {name};
    }
  }

  function ByName(name: string): Rank { Rank(name, "") }

  lemma ByNameIsLess(a: string, b: string)
    ensures RankLess(ByName(a), ByName(b)) <==> Less(a, b)
  {
  }

  lemma FirstExists(names: set<string>) returns (first: string)
    requires names != {}
    ensures IsFirst(names, first)
  {
    first := LeastExists(names, ByName);
    forall other | other in names && other != first
      ensures Less(first, other)
    {
      ByNameIsLess(first, other);
    }
  }

  /** The names of a directory, sorted. */
  method Sort(members: set<string>) returns (names: seq<string>)
    ensures Lists(names, members)
  {
    names := SortBy(members, ByName);
    forall i, j | 0 <= i < j < |names|
      ensures Less(names[i], names[j])
    {
      ByNameIsLess(names[i], names[j]);
    }
  }

  lemma RankedAreDistinct(names: seq<string>, rank: string -> Rank)
    requires RankedBy(names, rank)
    ensures forall i, j :: 0 <= i < j < |names| ==> names[i] != names[j]
  {
    forall i, j | 0 <= i < j < |names|
      ensures names[i] != names[j]
    {
      RankTotal(rank(names[i]), rank(names[i]));
    }
  }

  /** The order of record files: by the whole file name, its suffix with it. */
  function ByFileName(id: string): Rank { Rank("", id + ".json") }

  lemma SuffixOff(a: string, b: string)
    requires a + ".json" == b + ".json"
    ensures a == b
  {
    assert |a| == |b|;
    assert a == (a + ".json")[..|a|] && b == (b + ".json")[..|b|];
  }

  // ---- Repetitions ----

  /** The first of each, in order. */
  function Firsts<T(==)>(items: seq<T>): seq<T> {
    if items == [] then []
    else
      var earlier, last := Firsts(items[..|items| - 1]), items[|items| - 1];
      if last in items[..|items| - 1] then earlier else earlier + [last]
  }

  lemma {:induction false} FirstsKeep<T>(items: seq<T>, item: T)
    ensures item in Firsts(items) <==> item in items
  {
    if items != [] {
      FirstsKeep(items[..|items| - 1], item);
      assert items == items[..|items| - 1] + [items[|items| - 1]];
    }
  }

  lemma {:induction false} FirstsOnce<T>(items: seq<T>)
    ensures forall i, j :: 0 <= i < j < |Firsts(items)| ==> Firsts(items)[i] != Firsts(items)[j]
  {
    if items != [] {
      var earlier, last := items[..|items| - 1], items[|items| - 1];
      FirstsOnce(earlier);
      FirstsKeep(earlier, last);
    }
  }

  /** These are the places of some items, in order, each the first of its item. */
  ghost predicate FirstPlaces<T>(at: seq<nat>, items: seq<T>, kept: seq<T>) {
    && |at| == |kept|
    && (forall k :: 0 <= k < |at| ==> at[k] < |items| && items[at[k]] == kept[k] && kept[k] !in items[..at[k]])
    && (forall j, k :: 0 <= j < k < |at| ==> at[j] < at[k])
  }

  lemma {:induction false} FirstsInOrder<T>(items: seq<T>) returns (at: seq<nat>)
    ensures FirstPlaces(at, items, Firsts(items))
  {
    if items == [] {
      at := [];
    } else {
      var n := |items| - 1;
      at := FirstsInOrder(items[..n]);
      assert forall k :: 0 <= k < |at| ==> items[..n][..at[k]] == items[..at[k]];
      if items[n] !in items[..n] {
        at := at + [n];
      }
    }
  }

  // ---- Names as text ----

  /** The parts with a separator between any two. */
  function Separated(parts: seq<string>, separator: string): string {
    if parts == [] then ""
    else if |parts| == 1 then parts[0]
    else parts[0] + separator + Separated(parts[1..], separator)
  }
}
