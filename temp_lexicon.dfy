/*
 * TempLexicon: a person's memory of items heard but not (yet) learned, and
 * the tally Model.calcCommonLex builds of every item in the population. Each
 * entry is an int[5]: a hearing count followed by the item itself. Entries
 * are ordered by 100 * index + language (TempLexiconComparator).
 */
module TempLexicons {
  import opened Items
  import opened Sorting

  /** TempLexicon.numTempElements = numElements + 1 */
  const NumTempElements: int := NumElements + 1

  type Entry = s: seq<int> | |s| == 5 witness [1, 0, 0, 0, 0]

  /** the item an entry counts */
  function Heard(e: Entry): Item { e[1..] }

  /** a fresh entry: heard once */
  function NewEntry(it: seq<int>): (e: Entry)
    requires |it| >= NumElements
    ensures e[0] == 1 && Heard(e) == it[..NumElements]
  {
    [1, it[0], it[1], it[2], it[3]]
  }

  /** TempLexiconComparator: index first, then language */
  function TempKey(e: Entry): int { 100 * e[1] + e[2] }

  /** first position whose entry counts `x`, or -1 */
  function HeardPosition(es: seq<Entry>, x: seq<int>): (p: int)
    ensures -1 <= p < |es|
    ensures p >= 0 ==> Heard(es[p]) == x && forall j :: 0 <= j < p ==> Heard(es[j]) != x
    ensures p == -1 <==> forall j :: 0 <= j < |es| ==> Heard(es[j]) != x
  {
    if es == [] then -1
    else if Heard(es[0]) == x then 0
    else
      var p := HeardPosition(es[1..], x);
      if p < 0 then -1 else p + 1
  }

  /** hearItem: the table after hearing `x` */
  function HearResult(es: seq<Entry>, x: seq<int>): seq<Entry> {
    if |x| != NumElements then es
    else
      var p := HeardPosition(es, x);
      if p >= 0 then es[p := es[p][0 := es[p][0] + 1]]
      else SortBy(es + [NewEntry(x)], TempKey)
  }

  /** numTimesHeard */
  function TimesHeard(es: seq<Entry>, x: seq<int>): int {
    var p := HeardPosition(es, x);
    if p < 0 then 0 else es[p][0]
  }

  /** the entries whose item carries `index`, in table order */
  function EntriesWithIndex(es: seq<Entry>, index: int): seq<Entry> {
    if es == [] then []
    else EntriesWithIndex(es[..|es| - 1], index) + (if es[|es| - 1][1] == index then [es[|es| - 1]] else [])
  }

  /**
   * The running maximum of getMostHeardWithIndex over the first n entries:
   * it starts at count 0 and position 0 and moves only on a strictly larger
   * count.
   */
  function ScanMax(f: seq<Entry>, n: nat): (r: (int, nat))
    requires n <= |f|
    ensures r.1 < |f| || (|f| == 0 && r.1 == 0)
  {
    if n == 0 then (0, 0)
    else
      var (m, k) := ScanMax(f, n - 1);
      if f[n - 1][0] > m then (f[n - 1][0], n - 1) else (m, k)
  }

  /** getMostHeardWithIndex: null when no entry has the index */
  function MostHeard(es: seq<Entry>, index: int): Option<Item> {
    var f := EntriesWithIndex(es, index);
    if f == [] then None else Some(Heard(f[ScanMax(f, |f|).1]))
  }

  /** Every entry heard at least once, and each item counted in one entry only. */
  ghost predicate Inv(es: seq<Entry>) {
    && (forall i :: 0 <= i < |es| ==> es[i][0] >= 1)
    && DistinctBy(es, Heard)
  }

  class TempLexicon {
    var entries: seq<Entry>

    /** TempLexicon(): an empty table */
    constructor Empty()
      ensures entries == []
    {
      entries := [];
    }

    /** TempLexicon(int[]): the item counted once */
    constructor FromItem(x: seq<int>)
      requires |x| >= NumElements
      ensures entries == [NewEntry(x)]
    {
      entries := [NewEntry(x)];
    }

    /** heardItem: position of the entry counting `x`, -1 if none (or `x` is malformed) */
    method HeardItem(x: seq<int>) returns (pos: int)
      ensures pos == HeardPosition(entries, x)
    {
      var i := 0;
      while i < |entries|
        invariant 0 <= i <= |entries|
        invariant forall j :: 0 <= j < i ==> Heard(entries[j]) != x
      {
        var eq := ItemsEqual(x, entries[i][1..]);
        if eq {
          return i;
        }
        i := i + 1;
      }
      return -1;
    }

    /** numTimesHeard: 0 for an item never heard */
    method NumTimesHeard(x: seq<int>) returns (n: int)
      ensures n == TimesHeard(entries, x)
    {
      var pos := HeardItem(x);
      if pos == -1 {
        return 0;
      }
      return entries[pos][0];
    }

    /**
     * hearItem: -1 for a malformed item; otherwise counts one more hearing
     * and returns the new count, adding a fresh entry (and re-sorting) for
     * an item not heard before.
     */
    method HearItem(x: seq<int>) returns (count: int)
      modifies this
      ensures entries == HearResult(old(entries), x)
      ensures |x| != NumElements ==> count == -1
      ensures |x| == NumElements ==> count == TimesHeard(entries, x)
    {
      if |x| != NumElements {
        return -1;
      }
      var pos := HeardItem(x);
      if pos != -1 {
        entries := entries[pos := entries[pos][0 := entries[pos][0] + 1]];
        assert HeardPosition(entries, x) == pos by {
          assert forall j :: 0 <= j < |entries| ==> Heard(entries[j]) == Heard(old(entries)[j]);
        }
        return entries[pos][0];
      }
      var e := NewEntry(x);
      entries := SortBy(entries + [e], TempKey);
      HearAddsEntry(old(entries), x);
      return 1;
    }

    /** getMostHeardWithIndex: a copy of the most often heard item with that index */
    method GetMostHeardWithIndex(index: int) returns (r: Option<Item>)
      ensures r == MostHeard(entries, index)
    {
      var found := [];
      var i := 0;
      while i < |entries|
        invariant 0 <= i <= |entries|
        invariant found == EntriesWithIndex(entries[..i], index)
      {
        assert entries[..i + 1][..i] == entries[..i];
        if entries[i][1] == index {
          found := found + [entries[i]];
        }
        i := i + 1;
      }
      assert entries[..i] == entries;
      if |found| == 0 {
        return None;
      }
      var maxTimesHeard, maxIndex := 0, 0;
      var j := 0;
      while j < |found|
        invariant 0 <= j <= |found|
        invariant (maxTimesHeard, maxIndex) == ScanMax(found, j)
      {
        if found[j][0] > maxTimesHeard {
          maxTimesHeard, maxIndex := found[j][0], j;
        }
        j := j + 1;
      }
      return Some(found[maxIndex][1..]);
    }
  }

  /** Appending an entry leaves the earlier matches where they were. */
  lemma HeardPositionAppend(es: seq<Entry>, e: Entry, y: seq<int>)
    ensures HeardPosition(es + [e], y) ==
              if HeardPosition(es, y) >= 0 then HeardPosition(es, y)
              else if Heard(e) == y then |es| else -1
  {
    var t := es + [e];
    assert forall j :: 0 <= j < |es| ==> t[j] == es[j];
    assert t[|es|] == e;
  }

  /** Reordering a table with one entry per item changes no item's count. */
  lemma TimesHeardPermutation(a: seq<Entry>, b: seq<Entry>, y: seq<int>)
    requires multiset(a) == multiset(b) && DistinctBy(a, Heard)
    ensures TimesHeard(a, y) == TimesHeard(b, y)
  {
    var pa, pb := HeardPosition(a, y), HeardPosition(b, y);
    if pa >= 0 {
      assert a[pa] in multiset(b);
      assert a[pa] in b;
      assert pb >= 0;
    }
    if pb >= 0 {
      assert b[pb] in multiset(a);
      assert b[pb] in a;
      var m :| 0 <= m < |a| && a[m] == b[pb];
      assert pa >= 0;
      assert m == pa by {
        assert Heard(a[m]) == Heard(a[pa]);
        assert !(m < pa) && !(pa < m);
      }
    }
  }

  /** A table with one entry per item still has one after a new item is appended. */
  lemma AppendNewKeepsDistinct(es: seq<Entry>, x: seq<int>)
    requires |x| == NumElements && DistinctBy(es, Heard) && HeardPosition(es, x) < 0
    ensures DistinctBy(es + [NewEntry(x)], Heard)
  {
    var t := es + [NewEntry(x)];
    assert forall j :: 0 <= j < |es| ==> t[j] == es[j] && Heard(es[j]) != x;
  }

  /** An entry for an item the table never heard is not in the table. */
  lemma UnheardNotIn(es: seq<Entry>, e: Entry)
    requires HeardPosition(es, Heard(e)) < 0
    ensures e !in es
  {
  }

  /** A new item gets an entry of its own, with count 1, in key order. */
  lemma HearAddsEntry(es: seq<Entry>, x: seq<int>)
    requires |x| == NumElements && HeardPosition(es, x) < 0
    ensures TimesHeard(HearResult(es, x), x) == 1
    ensures |HearResult(es, x)| == |es| + 1
    ensures Sorted(HearResult(es, x), TempKey)
  {
    var t := es + [NewEntry(x)];
    assert HearResult(es, x) == SortBy(t, TempKey);
    SortBySortedPermutation(t, TempKey);
    NewEntryFound(es, x, SortBy(t, TempKey));
  }

  /** A reordering of the table plus a new item's entry counts that item once. */
  lemma NewEntryFound(es: seq<Entry>, x: seq<int>, r: seq<Entry>)
    requires |x| == NumElements && HeardPosition(es, x) < 0
    requires multiset(r) == multiset(es + [NewEntry(x)])
    ensures TimesHeard(r, x) == 1
  {
    var e := NewEntry(x);
    assert e in multiset(r);
    var p := HeardPosition(r, x);
    assert p >= 0;
    assert r[p] in multiset(es + [e]);
    UnheardNotIn(es, r[p]);
    assert r[p] == e;
  }

  /** Tables that count the same items position by position find them at the same positions. */
  lemma SameHeardSamePosition(a: seq<Entry>, b: seq<Entry>, y: seq<int>)
    requires |a| == |b| && forall j :: 0 <= j < |a| ==> Heard(a[j]) == Heard(b[j])
    ensures HeardPosition(a, y) == HeardPosition(b, y)
  {
    var pa, pb := HeardPosition(a, y), HeardPosition(b, y);
    if pa >= 0 && pb >= 0 {
      assert !(pa < pb) && !(pb < pa);
    }
  }

  /** Bumping the count of one entry changes no entry's item. */
  lemma BumpKeepsHeard(es: seq<Entry>, p: nat)
    requires p < |es|
    ensures forall j :: 0 <= j < |es| ==> Heard(es[p := es[p][0 := es[p][0] + 1]][j]) == Heard(es[j])
  {
    var r := es[p := es[p][0 := es[p][0] + 1]];
    forall j | 0 <= j < |es|
      ensures Heard(r[j]) == Heard(es[j])
    {
      if j == p {
        assert r[j][1..] == es[j][1..];
      }
    }
  }

  /** Bumping entry p adds one to the count found there and to no other. */
  lemma BumpCounts(es: seq<Entry>, p: nat, y: seq<int>)
    requires p < |es|
    ensures TimesHeard(es[p := es[p][0 := es[p][0] + 1]], y) == TimesHeard(es, y) + (if HeardPosition(es, y) == p then 1 else 0)
  {
    var r := es[p := es[p][0 := es[p][0] + 1]];
    BumpKeepsHeard(es, p);
    SameHeardSamePosition(r, es, y);
    var q := HeardPosition(es, y);
    if q >= 0 && q != p {
      assert r[q] == es[q];
    }
  }

  /** Counting a hearing of a known item bumps its entry in place. */
  lemma HearKnownCounts(es: seq<Entry>, x: Item, y: seq<int>)
    requires HeardPosition(es, x) >= 0
    ensures TimesHeard(HearResult(es, x), x) == TimesHeard(es, x) + 1
    ensures y != x ==> TimesHeard(HearResult(es, x), y) == TimesHeard(es, y)
  {
    var p := HeardPosition(es, x);
    assert HearResult(es, x) == es[p := es[p][0 := es[p][0] + 1]];
    BumpCounts(es, p, x);
    BumpCounts(es, p, y);
  }

  /** Appending the entry of another item leaves the count of `y` alone. */
  lemma AppendOtherCount(es: seq<Entry>, x: Item, y: seq<int>)
    requires y != x
    ensures TimesHeard(es + [NewEntry(x)], y) == TimesHeard(es, y)
  {
    var t := es + [NewEntry(x)];
    HeardPositionAppend(es, NewEntry(x), y);
    assert Heard(NewEntry(x)) == x;
    var q := HeardPosition(es, y);
    if q >= 0 {
      assert t[q] == es[q];
    }
  }

  /** Counting a hearing of a new item leaves every other item's count alone. */
  lemma HearNewCounts(es: seq<Entry>, x: Item, y: seq<int>)
    requires Inv(es) && HeardPosition(es, x) < 0 && y != x
    ensures TimesHeard(HearResult(es, x), y) == TimesHeard(es, y)
  {
    var t := es + [NewEntry(x)];
    SortBySortedPermutation(t, TempKey);
    AppendNewKeepsDistinct(es, x);
    TimesHeardPermutation(t, SortBy(t, TempKey), y);
    AppendOtherCount(es, x, y);
  }

  /**
   * hearItem counts one more hearing of `x` and of nothing else: the count
   * of `x` goes up by one, and the count of every other item is unchanged.
   */
  lemma HearCountsOne(es: seq<Entry>, x: Item, y: seq<int>)
    requires Inv(es)
    ensures TimesHeard(HearResult(es, x), x) == TimesHeard(es, x) + 1
    ensures y != x ==> TimesHeard(HearResult(es, x), y) == TimesHeard(es, y)
  {
    if HeardPosition(es, x) >= 0 {
      HearKnownCounts(es, x, y);
    } else {
      HearAddsEntry(es, x);
      if y != x {
        HearNewCounts(es, x, y);
      }
    }
  }

  /** hearItem keeps every count positive and one entry per item. */
  lemma HearKeepsInv(es: seq<Entry>, x: seq<int>)
    requires Inv(es)
    ensures Inv(HearResult(es, x))
  {
    if |x| == NumElements {
      var p := HeardPosition(es, x);
      if p >= 0 {
        var r := HearResult(es, x);
        assert forall j :: 0 <= j < |r| ==> Heard(r[j]) == Heard(es[j]);
      } else {
        var t := es + [NewEntry(x)];
        SortBySortedPermutation(t, TempKey);
        SortByDistinct(t, TempKey, Heard);
        var r := SortBy(t, TempKey);
        forall i | 0 <= i < |r|
          ensures r[i][0] >= 1
        {
          assert r[i] in multiset(t);
          assert r[i] in t;
        }
      }
    }
  }

  /** In the filtered entries the scan's value is the count at the position it settles on. */
  lemma {:induction false} ScanMaxFindsFirstMaximum(f: seq<Entry>, n: nat)
    requires 0 < n <= |f|
    requires forall i :: 0 <= i < |f| ==> f[i][0] >= 1
    ensures ScanMax(f, n).1 < n
    ensures ScanMax(f, n).0 == f[ScanMax(f, n).1][0]
    ensures forall j :: 0 <= j < n ==> f[j][0] <= ScanMax(f, n).0
    ensures forall j :: 0 <= j < ScanMax(f, n).1 ==> f[j][0] < ScanMax(f, n).0
    decreases n
  {
    if n > 1 {
      ScanMaxFindsFirstMaximum(f, n - 1);
    }
  }

  lemma {:induction false} EntriesWithIndexMembers(es: seq<Entry>, index: int)
    ensures forall e :: e in EntriesWithIndex(es, index) <==> e in es && e[1] == index
    decreases |es|
  {
    if es != [] {
      EntriesWithIndexMembers(es[..|es| - 1], index);
      assert es == es[..|es| - 1] + [es[|es| - 1]];
    }
  }

  lemma {:induction false} EntriesWithIndexPositive(es: seq<Entry>, index: int)
    requires forall i :: 0 <= i < |es| ==> es[i][0] >= 1
    ensures forall i :: 0 <= i < |EntriesWithIndex(es, index)| ==> EntriesWithIndex(es, index)[i][0] >= 1
    decreases |es|
  {
    if es != [] {
      EntriesWithIndexPositive(es[..|es| - 1], index);
    }
  }

  /**
   * getMostHeardWithIndex returns the item of a stored entry with that
   * index, heard at least as often as any other entry with that index, and
   * the first such entry in table order when several tie; null exactly when
   * no stored item has the index.
   */
  lemma MostHeardIsFirstMaximum(es: seq<Entry>, index: int)
    requires Inv(es)
    ensures MostHeard(es, index).None? <==> forall i :: 0 <= i < |es| ==> es[i][1] != index
    ensures MostHeard(es, index).Some? ==>
              var f := EntriesWithIndex(es, index);
              var k := ScanMax(f, |f|).1;
              && k < |f| && f[k] in es
              && MostHeard(es, index).value == Heard(f[k])
              && MostHeard(es, index).value[0] == index
              && (forall j :: 0 <= j < |f| ==> f[j][0] <= f[k][0])
              && (forall j :: 0 <= j < k ==> f[j][0] < f[k][0])
  {
    var f := EntriesWithIndex(es, index);
    EntriesWithIndexMembers(es, index);
    if f == [] {
      forall i | 0 <= i < |es|
        ensures es[i][1] != index
      {
        assert es[i] in es;
      }
    } else {
      assert f[0] in f;
      EntriesWithIndexPositive(es, index);
      ScanMaxFindsFirstMaximum(f, |f|);
      var k := ScanMax(f, |f|).1;
      assert f[k] in f;
    }
  }
}
