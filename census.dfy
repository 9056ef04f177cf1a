/*
 * Census: the value-level definitions behind Model's bookkeeping. They cover
 * list removal as ArrayList.remove(Object) performs it, the counts calcStats
 * keeps, the USAS index bins of calcIndexFreqOfUSAS and the common-lexicon
 * tables of calcCommonLex.
 */
module Census {
  import opened Items
  import opened TempLexicons
  import opened Agents

  // ---------------------------------------------------------------------------
  // Lists
  // ---------------------------------------------------------------------------

  /** ArrayList.remove(Object): the first occurrence of `x` taken out, if there is one */
  function RemoveFirst<T(==)>(s: seq<T>, x: T): (r: seq<T>)
    ensures |r| == if x in s then |s| - 1 else |s|
    ensures x !in s ==> r == s
  {
    if s == [] then []
    else if s[0] == x then s[1..]
    else [s[0]] + RemoveFirst(s[1..], x)
  }

  /** `x` removed from `s` once for every occurrence in `xs`, in order */
  function RemoveAll<T(==)>(s: seq<T>, xs: seq<T>): seq<T> {
    if xs == [] then s else RemoveFirst(RemoveAll(s, xs[..|xs| - 1]), xs[|xs| - 1])
  }

  /** no element occurs twice */
  ghost predicate Distinct<T>(s: seq<T>) {
    forall x :: x in s ==> multiset(s)[x] == 1
  }

  /** the elements of `s` whose flag is `b`, in order */
  function Select<T>(s: seq<T>, flags: seq<bool>, b: bool): seq<T>
    requires |flags| == |s|
  {
    if s == [] then []
    else Select(s[..|s| - 1], flags[..|s| - 1], b) + (if flags[|s| - 1] == b then [s[|s| - 1]] else [])
  }

  /** remove(x) takes out exactly one `x` when there is one and changes nothing otherwise */
  lemma {:induction false} RemoveFirstCounts<T>(s: seq<T>, x: T)
    ensures x in s ==> multiset(RemoveFirst(s, x)) == multiset(s) - multiset{x}
    ensures x !in s ==> RemoveFirst(s, x) == s
    decreases |s|
  {
    if s != [] {
      assert s == [s[0]] + s[1..];
      if s[0] != x {
        RemoveFirstCounts(s[1..], x);
      }
    }
  }

  /** removing something the tail never holds commutes with appending that tail */
  lemma {:induction false} RemoveFirstAppend<T>(s: seq<T>, t: seq<T>, x: T)
    requires x !in t
    ensures RemoveFirst(s + t, x) == RemoveFirst(s, x) + t
    decreases |s|
  {
    if s == [] {
      assert s + t == t;
      RemoveFirstCounts(t, x);
    } else {
      assert (s + t)[0] == s[0] && (s + t)[1..] == s[1..] + t;
      if s[0] != x {
        RemoveFirstAppend(s[1..], t, x);
        assert [s[0]] + (RemoveFirst(s[1..], x) + t) == ([s[0]] + RemoveFirst(s[1..], x)) + t;
      }
    }
  }

  /**
   * A run of removals never adds anything, and leaves every element that
   * was not asked for exactly as often as before.
   */
  lemma {:induction false} RemoveAllCounts<T>(s: seq<T>, xs: seq<T>)
    ensures multiset(RemoveAll(s, xs)) <= multiset(s)
    ensures forall y :: y !in xs ==> multiset(RemoveAll(s, xs))[y] == multiset(s)[y]
    decreases |xs|
  {
    if xs != [] {
      var init, x := xs[..|xs| - 1], xs[|xs| - 1];
      var prev := RemoveAll(s, init);
      RemoveAllCounts(s, init);
      RemoveFirstCounts(prev, x);
      assert xs == init + [x];
      forall y | y !in xs
        ensures multiset(RemoveAll(s, xs))[y] == multiset(s)[y]
      {
        assert y !in init && y != x;
      }
    }
  }

  /** remove(x) only ever takes something out */
  lemma RemoveFirstSubset<T>(s: seq<T>, x: T)
    ensures forall y :: y in RemoveFirst(s, x) ==> y in s
  {
    RemoveFirstCounts(s, x);
    forall y | y in RemoveFirst(s, x)
      ensures y in s
    {
      assert y in multiset(RemoveFirst(s, x));
    }
  }

  /** remove(x) of a present `x` shortens the list by one; without repeats, `x` is then gone */
  lemma RemoveFirstOnce<T>(s: seq<T>, x: T)
    requires x in s
    ensures |RemoveFirst(s, x)| == |s| - 1
    ensures Distinct(s) ==> Distinct(RemoveFirst(s, x)) && x !in RemoveFirst(s, x)
  {
    var r := RemoveFirst(s, x);
    RemoveFirstCounts(s, x);
    assert |multiset(r)| == |multiset(s)| - 1;
    if Distinct(s) {
      assert multiset(r)[x] == 0;
      forall y | y in r
        ensures multiset(r)[y] == 1
      {
        assert multiset(r)[y] > 0;
        assert multiset(s)[y] == multiset(r)[y] + (if y == x then 1 else 0);
        assert y in multiset(s);
        assert y in s;
      }
    }
  }

  /** Removing one occurrence keeps a list free of repeats, and leaves nothing of `x`. */
  lemma RemoveFirstKeepsDistinct<T>(s: seq<T>, x: T)
    requires Distinct(s)
    ensures Distinct(RemoveFirst(s, x))
    ensures multiset(RemoveFirst(s, x)) <= multiset(s)
    ensures x !in RemoveFirst(s, x)
  {
    var r := RemoveFirst(s, x);
    RemoveFirstCounts(s, x);
    forall y | y in r
      ensures multiset(r)[y] == 1
    {
      assert y in multiset(r);
      assert y in multiset(s);
    }
    assert multiset(r)[x] == 0;
  }

  /** In a list without repeats, everyone removed is gone afterwards. */
  lemma {:induction false} RemoveAllGone<T>(s: seq<T>, xs: seq<T>)
    requires Distinct(s)
    ensures Distinct(RemoveAll(s, xs))
    ensures forall x :: x in xs ==> x !in RemoveAll(s, xs)
    decreases |xs|
  {
    if xs != [] {
      var init, x := xs[..|xs| - 1], xs[|xs| - 1];
      var prev := RemoveAll(s, init);
      RemoveAllGone(s, init);
      assert xs == init + [x];
      RemoveFirstKeepsDistinct(prev, x);
      forall y | y in xs
        ensures y !in RemoveAll(s, xs)
      {
        if y in init {
          assert y !in multiset(prev);
          assert y !in multiset(RemoveFirst(prev, x));
        } else {
          assert y == x;
        }
      }
    }
  }

  /** a run of removals of things the tail never holds commutes with appending it */
  lemma {:induction false} RemoveAllAppend<T>(s: seq<T>, t: seq<T>, xs: seq<T>)
    requires forall x :: x in xs ==> x !in t
    ensures RemoveAll(s + t, xs) == RemoveAll(s, xs) + t
    decreases |xs|
  {
    if xs != [] {
      var init, x := xs[..|xs| - 1], xs[|xs| - 1];
      assert x in xs;
      RemoveAllAppend(s, t, init);
      RemoveFirstAppend(RemoveAll(s, init), t, x);
    }
  }

  /** the two selections split the list: together they hold exactly its elements */
  /** one more element: it goes to the side its flag names */
  lemma SelectSnoc<T>(s: seq<T>, flags: seq<bool>, x: T, f: bool, b: bool)
    requires |flags| == |s|
    ensures Select(s + [x], flags + [f], b) == Select(s, flags, b) + (if f == b then [x] else [])
  {
    assert (s + [x])[..|s|] == s;
    assert (flags + [f])[..|s|] == flags;
  }

  /** one more removal at the end of the run */
  lemma RemoveAllSnoc<T>(s: seq<T>, xs: seq<T>, x: T)
    ensures RemoveAll(s, xs + [x]) == RemoveFirst(RemoveAll(s, xs), x)
  {
    assert (xs + [x])[..|xs|] == xs;
  }

  /**
   * A departure seen from a list that was thinned by a run of removals and
   * then extended by a tail the departing element is not in.
   */
  lemma DepartBook<T>(s: seq<T>, gone: seq<T>, tail: seq<T>, x: T, leaves: bool)
    requires x !in tail
    ensures (if leaves then RemoveFirst(RemoveAll(s, gone) + tail, x) else RemoveAll(s, gone) + tail) ==
            RemoveAll(s, if leaves then gone + [x] else gone) + tail
  {
    if leaves {
      RemoveAllSnoc(s, gone, x);
      RemoveFirstAppend(RemoveAll(s, gone), tail, x);
    }
  }

  /**
   * One turn of ageAndReproduce seen from latinoList: a possible departure
   * of `x`, then possibly one more element `y` selected by `yFlag`.
   */
  lemma LatinoBook<T>(s: seq<T>, gone: seq<T>, bs: seq<T>, flags: seq<bool>, x: T, leaves: bool, y: T, hasY: bool, yFlag: bool)
    requires |flags| == |bs| && x !in bs
    ensures (if leaves then RemoveFirst(RemoveAll(s, gone) + Select(bs, flags, true), x) else RemoveAll(s, gone) + Select(bs, flags, true)) +
            (if hasY && yFlag then [y] else []) ==
            RemoveAll(s, if leaves then gone + [x] else gone) +
            Select(if hasY then bs + [y] else bs, if hasY then flags + [yFlag] else flags, true)
  {
    var tail := Select(bs, flags, true);
    SelectWithin(bs, flags, true);
    DepartBook(s, gone, tail, x, leaves);
    var extra := if hasY && yFlag then [y] else [];
    if hasY {
      SelectSnoc(bs, flags, y, yFlag, true);
    }
    var head := RemoveAll(s, if leaves then gone + [x] else gone);
    assert (head + tail) + extra == head + (tail + extra);
  }

  /** one more flagged element, seen through a prefix of the list */
  lemma SelectPrefix<T>(s: seq<T>, i: nat, flags: seq<bool>, f: bool, b: bool)
    requires i < |s| && |flags| == i
    ensures Select(s[..i + 1], flags + [f], b) == Select(s[..i], flags, b) + (if f == b then [s[i]] else [])
  {
    assert s[..i + 1] == s[..i] + [s[i]];
    SelectSnoc(s[..i], flags, s[i], f, b);
  }

  /** Everything selected comes from the list it was selected from. */
  lemma {:induction false} SelectWithin<T>(s: seq<T>, flags: seq<bool>, b: bool)
    requires |flags| == |s|
    ensures forall y :: y in Select(s, flags, b) ==> y in s
    decreases |s|
  {
    if s != [] {
      var n := |s| - 1;
      SelectWithin(s[..n], flags[..n], b);
      assert s == s[..n] + [s[n]];
    }
  }

  lemma {:induction false} SelectSplits<T>(s: seq<T>, flags: seq<bool>)
    requires |flags| == |s|
    ensures multiset(Select(s, flags, false)) + multiset(Select(s, flags, true)) == multiset(s)
    decreases |s|
  {
    if s != [] {
      var n := |s| - 1;
      SelectSplits(s[..n], flags[..n]);
      assert s == s[..n] + [s[n]];
    }
  }

  // ---------------------------------------------------------------------------
  // Statistics
  // ---------------------------------------------------------------------------

  /** the counters calcStats resets and increments */
  datatype Stats = Stats(
    white: nat, black: nat, latino: nat,
    children: nat, students: nat, adults: nat,
    blackStudents: nat, latinoStudents: nat, blackAdults: nat, latinoAdults: nat)

  const NoStats: Stats := Stats(0, 0, 0, 0, 0, 0, 0, 0, 0, 0)

  /** the race counter a person of race `race` adds to */
  function CountRace(s: Stats, race: int): Stats {
    if race == White then s.(white := s.white + 1)
    else if race == Black then s.(black := s.black + 1)
    else if race == Latino then s.(latino := s.latino + 1)
    else s
  }

  /** the age-class counters a person adds to */
  function CountAgeClass(s: Stats, race: int, ageClass: int): Stats {
    if ageClass == Adult then
      var a := s.(adults := s.adults + 1);
      if race == Black then a.(blackAdults := a.blackAdults + 1)
      else if race == Latino then a.(latinoAdults := a.latinoAdults + 1)
      else a
    else if ageClass == Student then
      var t := s.(students := s.students + 1);
      if race == Black then t.(blackStudents := t.blackStudents + 1)
      else if race == Latino then t.(latinoStudents := t.latinoStudents + 1)
      else t
    else if ageClass == Child then s.(children := s.children + 1)
    else s
  }

  /** the counters after one more person of that race and age class */
  function Count(s: Stats, race: int, ageClass: int): Stats {
    CountAgeClass(CountRace(s, race), race, ageClass)
  }

  /** the counters over a list of (race, age class) pairs */
  function Tally(d: seq<(int, int)>): Stats {
    if d == [] then NoStats
    else Count(Tally(d[..|d| - 1]), d[|d| - 1].0, d[|d| - 1].1)
  }

  /**
   * With every race and age class among the three codes, the race counters
   * and the age-class counters each add up to the number of people; black
   * and latino adults (students) never outnumber the adults (students).
   */
  lemma {:induction false} TallyPartitions(d: seq<(int, int)>)
    ensures var t := Tally(d);
      && t.blackAdults + t.latinoAdults <= t.adults
      && t.blackStudents + t.latinoStudents <= t.students
    ensures (forall i :: 0 <= i < |d| ==> White <= d[i].0 <= Latino) ==>
              Tally(d).white + Tally(d).black + Tally(d).latino == |d|
    ensures (forall i :: 0 <= i < |d| ==> Child <= d[i].1 <= Adult) ==>
              Tally(d).children + Tally(d).students + Tally(d).adults == |d|
    decreases |d|
  {
    if d != [] {
      var init, last := d[..|d| - 1], d[|d| - 1];
      TallyPartitions(init);
      CountStep(Tally(init), last.0, last.1);
    }
  }

  /** what one more person does to the sums TallyPartitions is about */
  lemma CountStep(s: Stats, race: int, ageClass: int)
    ensures var c := Count(s, race, ageClass);
      && c.blackAdults + c.latinoAdults - c.adults <= s.blackAdults + s.latinoAdults - s.adults
      && c.blackStudents + c.latinoStudents - c.students <= s.blackStudents + s.latinoStudents - s.students
      && (White <= race <= Latino ==> c.white + c.black + c.latino == s.white + s.black + s.latino + 1)
      && (Child <= ageClass <= Adult ==> c.children + c.students + c.adults == s.children + s.students + s.adults + 1)
  {
  }

  // ---------------------------------------------------------------------------
  // USAS index bins
  // ---------------------------------------------------------------------------

  /** the USAS items of a list, in order */
  function UsasOf(s: seq<Item>): seq<Item> {
    if s == [] then [] else UsasOf(s[..|s| - 1]) + (if IsUSAS(s[|s| - 1]) then [s[|s| - 1]] else [])
  }

  /** how many items carry index `i` */
  function IndexCount(s: seq<Item>, i: int): nat {
    if s == [] then 0 else IndexCount(s[..|s| - 1], i) + (if s[|s| - 1][0] == i then 1 else 0)
  }

  /** one bin per index 0 .. maxItems - 1 */
  function Bins(s: seq<Item>): (b: seq<int>)
    ensures |b| == MaxItems
  {
    seq(MaxItems, i => IndexCount(s, i))
  }

  function Sum(b: seq<int>): int {
    if b == [] then 0 else Sum(b[..|b| - 1]) + b[|b| - 1]
  }

  /** raising one bin by one raises the total by one */
  lemma {:induction false} SumBump(b: seq<int>, k: nat)
    requires k < |b|
    ensures Sum(b[k := b[k] + 1]) == Sum(b) + 1
    decreases |b|
  {
    var n := |b| - 1;
    var c := b[k := b[k] + 1];
    assert c[..n] == if k < n then b[..n][k := b[k] + 1] else b[..n];
    if k < n {
      SumBump(b[..n], k);
    }
  }

  /** the bins after one more item with index `x[0]` */
  lemma BinsSnoc(s: seq<Item>, x: Item)
    requires 0 <= x[0] < MaxItems
    ensures Bins(s + [x]) == Bins(s)[x[0] := Bins(s)[x[0]] + 1]
  {
    assert (s + [x])[..|s|] == s;
  }

  /** with every index in range, the bins add up to the number of items */
  lemma {:induction false} BinsSum(s: seq<Item>)
    requires forall i :: 0 <= i < |s| ==> 0 <= s[i][0] < MaxItems
    ensures Sum(Bins(s)) == |s|
    decreases |s|
  {
    if s == [] {
      assert Bins(s) == seq(MaxItems, i => 0);
      ZeroSum(MaxItems);
    } else {
      var n := |s| - 1;
      BinsSum(s[..n]);
      assert s == s[..n] + [s[n]];
      BinsSnoc(s[..n], s[n]);
      SumBump(Bins(s[..n]), s[n][0]);
    }
  }

  lemma {:induction false} ZeroSum(n: nat)
    ensures Sum(seq(n, i => 0)) == 0
    decreases n
  {
    if n > 0 {
      assert seq(n, i => 0)[..n - 1] == seq(n - 1, i => 0);
      ZeroSum(n - 1);
    }
  }

  // ---------------------------------------------------------------------------
  // Common lexicons
  // ---------------------------------------------------------------------------

  /** a TempLexicon table after hearing `items` in order */
  function HearAll(es: seq<Entry>, items: seq<Item>): seq<Entry> {
    if items == [] then es else HearResult(HearAll(es, items[..|items| - 1]), items[|items| - 1])
  }

  /** hearing two runs of items one after the other is hearing their concatenation */
  lemma {:induction false} HearAllAppend(es: seq<Entry>, a: seq<Item>, b: seq<Item>)
    ensures HearAll(es, a + b) == HearAll(HearAll(es, a), b)
    decreases |b|
  {
    if b == [] {
      assert a + b == a;
    } else {
      var init := b[..|b| - 1];
      HearAllAppend(es, a, init);
      assert (a + b)[..|a + b| - 1] == a + init;
    }
  }

  /** the most heard item of every index 0 .. n - 1 that was heard at all, by index */
  function CommonOf(es: seq<Entry>, n: nat): seq<Item> {
    if n == 0 then []
    else
      var m := MostHeard(es, n - 1);
      CommonOf(es, n - 1) + (if m.Some? then [m.value] else [])
  }

  /** getMostHeardWithIndex answers with an item of the index asked for */
  lemma MostHeardHasIndex(es: seq<Entry>, index: int)
    ensures MostHeard(es, index).Some? ==> MostHeard(es, index).value[0] == index
  {
    var f := EntriesWithIndex(es, index);
    EntriesWithIndexMembers(es, index);
    if f != [] {
      assert f[ScanMax(f, |f|).1] in f;
    }
  }

  /**
   * A common-lexicon table holds at most one item per index, in strictly
   * ascending index order, all below n, hence at most n items; each is the
   * most heard item of its index.
   */
  lemma {:induction false} CommonShape(es: seq<Entry>, n: nat)
    ensures var c := CommonOf(es, n);
      && |c| <= n
      && (forall i :: 0 <= i < |c| ==> 0 <= c[i][0] < n && MostHeard(es, c[i][0]) == Some(c[i]))
      && (forall i, j :: 0 <= i < j < |c| ==> c[i][0] < c[j][0])
    decreases n
  {
    if n > 0 {
      var prev, m := CommonOf(es, n - 1), MostHeard(es, n - 1);
      CommonShape(es, n - 1);
      if m.Some? {
        MostHeardHasIndex(es, n - 1);
        var c := prev + [m.value];
        assert CommonOf(es, n) == c;
        forall i | 0 <= i < |c|
          ensures 0 <= c[i][0] < n && MostHeard(es, c[i][0]) == Some(c[i])
        {
          if i < |prev| {
            assert c[i] == prev[i];
          }
        }
        forall i, j | 0 <= i < j < |c|
          ensures c[i][0] < c[j][0]
        {
          assert c[i] == prev[i];
          if j < |prev| {
            assert c[j] == prev[j];
          }
        }
      }
    }
  }
}
