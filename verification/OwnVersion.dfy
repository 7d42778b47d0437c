/** Whether a create keeps the version it makes. After a file has been deleted and the server restarted, the
    lists hold versions numbered above the new file record, and the new version may not be the newest. */
module OwnVersion {
  import opened Sequences
  import opened Records
  import opened VersionCatalog
  import VersionLists

  /** How many versions have a greater number. */
  function Above(list: seq<Version>, number: int): (n: nat)
    ensures n <= |list|
    decreases |list|
  {
    if list == [] then 0
    else Above(list[..|list| - 1], number) + if list[|list| - 1].number > number then 1 else 0
  }

  lemma AboveAppend(list: seq<Version>, v: Version, number: int)
    ensures Above(list + [v], number) == Above(list, number) + if v.number > number then 1 else 0
  {
    assert (list + [v])[..|list|] == list;
  }

  lemma {:induction false} AboveInsert(v: Version, sorted: seq<Version>, number: int)
    ensures Above(Insert(v, sorted), number) == Above(sorted, number) + if v.number > number then 1 else 0
    decreases |sorted|
  {
    if sorted != [] && sorted[|sorted| - 1].number > v.number {
      var front, last := sorted[..|sorted| - 1], sorted[|sorted| - 1];
      AboveInsert(v, front, number);
      AboveAppend(Insert(v, front), last, number);
      assert Insert(v, sorted) == Insert(v, front) + [last];
    } else {
      AboveAppend(sorted, v, number);
    }
  }

  /** Sorting moves no version across a number. */
  lemma {:induction false} AboveSorted(list: seq<Version>, number: int)
    ensures Above(SortByNumber(list), number) == Above(list, number)
    decreases |list|
  {
    if list != [] {
      var front := list[..|list| - 1];
      AboveSorted(front, number);
      AboveInsert(list[|list| - 1], SortByNumber(front), number);
    }
  }

  /** A version is inserted just before those with greater numbers. */
  lemma {:induction false} InsertPosition(v: Version, sorted: seq<Version>)
    requires NonDecreasing(sorted)
    ensures var k := |sorted| - Above(sorted, v.number);
            Insert(v, sorted) == sorted[..k] + [v] + sorted[k..]
    decreases |sorted|
  {
    if sorted != [] {
      var front, last := sorted[..|sorted| - 1], sorted[|sorted| - 1];
      if last.number > v.number {
        InsertPosition(v, front);
        var k := |front| - Above(front, v.number);
        assert k == |sorted| - Above(sorted, v.number);
        assert sorted[..k] == front[..k] && sorted[k..] == front[k..] + [last];
      } else {
        NoneAbove(sorted, v.number);
        assert sorted[|sorted|..] == [];
      }
    }
  }

  lemma {:induction false} NoneAbove(sorted: seq<Version>, number: int)
    requires forall i :: 0 <= i < |sorted| ==> sorted[i].number <= number
    ensures Above(sorted, number) == 0
    decreases |sorted|
  {
    if sorted != [] { NoneAbove(sorted[..|sorted| - 1], number); }
  }

  /** The new version's place in the sorted list. */
  lemma OwnPlace(list: seq<Version>, v: Version)
    requires v !in list
    ensures var s := SortByNumber(list + [v]);
            var k := |list| - Above(list, v.number);
            && |s| == |list| + 1 && s[k] == v && forall i :: 0 <= i < |s| && s[i] == v ==> i == k
  {
    var sorted := SortByNumber(list);
    SortSpec(list);
    AboveSorted(list, v.number);
    InsertPosition(v, sorted);
    assert (list + [v])[..|list|] == list;
    assert SortByNumber(list + [v]) == Insert(v, sorted);
    hide SortByNumber, Above, Insert, NonDecreasing;
    forall i | 0 <= i < |sorted| ensures sorted[i] != v { assert sorted[i] in multiset(sorted); }
    OnePlace(sorted, v, |list| - Above(list, v.number));
  }

  lemma OnePlace(sorted: seq<Version>, v: Version, k: nat)
    requires k <= |sorted| && forall i :: 0 <= i < |sorted| ==> sorted[i] != v
    ensures var s := sorted[..k] + [v] + sorted[k..];
            |s| == |sorted| + 1 && s[k] == v && forall i :: 0 <= i < |s| && s[i] == v ==> i == k
  {
    var s := sorted[..k] + [v] + sorted[k..];
    forall i | 0 <= i < |s| && i != k ensures s[i] != v {
      if i < k { assert s[i] == sorted[i]; } else { assert s[i] == sorted[i - 1]; }
    }
  }

  /** A create keeps its own version if and only if fewer than maxVersions listed versions are numbered
      above it. */
  lemma KeepsOwnIff(file: FileRecord, list: seq<Version>, v: Version)
    requires v !in list
    ensures v in Kept(file, list + [v]) <==> Above(list, v.number) < file.maxVersions
  {
    OwnPlace(list, v);
    SortSpec(list + [v]);
    hide Above, SortByNumber;
    var e, k := Excess(file, list + [v]), |list| - Above(list, v.number);
    if e > 0 { InTail(SortByNumber(list + [v]), v, k, e); }
  }

  /** A value that occurs once is behind a cut exactly when its place is. */
  lemma InTail(s: seq<Version>, v: Version, k: nat, e: nat)
    requires k < |s| && e <= |s| && s[k] == v && forall i :: 0 <= i < |s| && s[i] == v ==> i == k
    ensures v in s[e..] <==> k >= e
  {
    if k >= e { assert s[e..][k - e] == v; }
    forall i | 0 <= i < |s[e..]| ensures s[e..][i] == s[e + i] {}
  }

  /** And it becomes the version that downloads select if and only if the list had room for it without a
      clean-up, or none was numbered above it. */
  lemma SelectedIff(file: FileRecord, list: seq<Version>, v: Version)
    requires v !in list
    ensures var kept := Kept(file, list + [v]);
            kept != [] && kept[|kept| - 1] == v
            <==> |list| < file.maxVersions || (file.maxVersions > 0 && Above(list, v.number) == 0)
  {
    OwnPlace(list, v);
    SortSpec(list + [v]);
    hide Above, SortByNumber;
  }
}
