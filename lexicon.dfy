/*
 * Lexicon and BiLexicon. A lexicon wraps an ArrayList<int[]> of items; a
 * BiLexicon is a lexicon that may hold both languages, so it has twice the
 * capacity, tells items apart by index AND language, and orders them by
 * (MaxItems + 1) * language + index instead of by index alone.
 *
 * The subclass is modelled by the `kind` tag, and the ArrayList by the
 * ItemList object the lexicon points at: BiLexicon(Lexicon) adopts the very
 * same list object, so both lexicons then see every change to it.
 *
 * Every operation is a method on the list, specified by a function of the
 * list before the call; what the source promises about those functions is
 * proved as lemmas at the end of the module.
 */
module Lexicons {
  import opened Items
  import opened Sorting

  /** Lexicon or its subclass BiLexicon */
  datatype Kind = Mono | Bi

  function Capacity(k: Kind): int {
    if k == Mono then MaxItems else MaxItemsBi
  }

  /** LexiconComparator: order by index */
  function IndexKey(it: Item): int { it[0] }

  /** BiLexiconComparator: all English items (by index) before all Spanish ones */
  function BiKey(it: Item): int { (MaxItems + 1) * it[1] + it[0] }

  function SortKey(k: Kind): Item -> int {
    if k == Mono then IndexKey else BiKey
  }

  /** index and language: what a BiLexicon keeps unique */
  function Pair(it: Item): (int, int) { (it[0], it[1]) }

  /** a stored item `a` that blocks adding `x`: same index, and for a BiLexicon also same language */
  predicate Clash(k: Kind, a: Item, x: Item) {
    a[0] == x[0] && (k == Bi ==> a[1] == x[1])
  }

  // ---------------------------------------------------------------------------
  // Specification functions: the list after each operation
  // ---------------------------------------------------------------------------

  /** addItem accepts `x`: right length, room left, and no clashing item stored */
  predicate AddAccepts(k: Kind, s: seq<Item>, x: seq<int>) {
    && |x| == NumElements
    && |s| < Capacity(k)
    && forall i :: 0 <= i < |s| ==> !Clash(k, s[i], x)
  }

  function AddResult(k: Kind, s: seq<Item>, x: seq<int>): seq<Item> {
    if AddAccepts(k, s, x) then SortBy<Item>(s + [x], SortKey(k)) else s
  }

  /** first position holding an item equal to `x`, or -1 */
  function Position(s: seq<Item>, x: seq<int>): (p: int)
    ensures -1 <= p < |s|
    ensures p >= 0 ==> s[p] == x && forall j :: 0 <= j < p ==> s[j] != x
    ensures p == -1 <==> forall j :: 0 <= j < |s| ==> s[j] != x
  {
    if s == [] then -1
    else if s[0] == x then 0
    else
      var p := Position(s[1..], x);
      if p < 0 then -1 else p + 1
  }

  /** the items carrying `index`, in list order */
  function WithIndex(s: seq<Item>, index: int): seq<Item> {
    if s == [] then []
    else WithIndex(s[..|s| - 1], index) + (if s[|s| - 1][0] == index then [s[|s| - 1]] else [])
  }

  /** Lexicon.replaceItem with the index guard `pos >= size` (see Findings) */
  function ReplaceResult(s: seq<Item>, pos: nat, x: seq<int>): seq<Item> {
    if |x| != NumElements || pos >= |s| then s
    else SortBy<Item>(s[pos := x], IndexKey)
  }

  /**
   * replaceInflection: positions 2.. of the item at `pos` taken from `x`, then
   * a re-sort. Lexicon guards the inputs; BiLexicon does not.
   */
  function InflectResult(k: Kind, s: seq<Item>, pos: nat, x: seq<int>): seq<Item>
    requires k == Bi ==> pos < |s| && |x| >= NumElements
  {
    if k == Mono && (|x| != NumElements || pos >= |s|) then s
    else SortBy(s[pos := WithInflection(s[pos], x)], SortKey(k))
  }

  /** swapInflection succeeds: `existing` is stored and (for Lexicon) `x` has the right length */
  predicate SwapInflectionAccepts(k: Kind, s: seq<Item>, existing: seq<int>, x: seq<int>) {
    Position(s, existing) >= 0 && (k == Mono ==> |x| == NumElements)
  }

  function SwapInflectionResult(k: Kind, s: seq<Item>, existing: seq<int>, x: seq<int>): seq<Item>
    requires k == Bi && Position(s, existing) >= 0 ==> |x| >= NumElements
  {
    if SwapInflectionAccepts(k, s, existing, x) then InflectResult(k, s, Position(s, existing), x)
    else s
  }

  /** getRandomItemsFromLexicon hands back the whole list without shuffling */
  predicate DrawsWhole(k: Kind, n: int, size: int) {
    if k == Mono then n >= size else n > size
  }

  // ---------------------------------------------------------------------------
  // The objects
  // ---------------------------------------------------------------------------

  /** The ArrayList<int[]> a lexicon wraps. */
  class ItemList {
    var items: seq<Item>

    constructor(initial: seq<Item>)
      ensures items == initial
    {
      items := initial;
    }
  }

  class Lexicon {
    const kind: Kind
    const list: ItemList

    /** Lexicon() and BiLexicon(): an empty list */
    constructor Empty(k: Kind)
      ensures kind == k && fresh(list) && list.items == []
    {
      kind := k;
      list := new ItemList([]);
    }

    /** Lexicon(int[]) and BiLexicon(int[]): a list holding the one item */
    constructor Single(k: Kind, item: Item)
      ensures kind == k && fresh(list) && list.items == [item]
    {
      kind := k;
      list := new ItemList([item]);
    }

    /** Lexicon(ArrayList): the given items, unsorted and unchecked */
    constructor FromItems(k: Kind, items: seq<Item>)
      ensures kind == k && fresh(list) && list.items == items
    {
      kind := k;
      list := new ItemList(items);
    }

    /** BiLexicon(Lexicon): adopts the other lexicon's list object as it is */
    constructor Adopt(lex: Lexicon)
      ensures kind == Bi && list == lex.list
    {
      kind := Bi;
      list := lex.list;
    }

    /** getNumItems: the count of items, the first index at which getItem answers null */
    function Size(): (n: nat)
      reads list
      ensures forall i :: 0 <= i < n <==> GetItem(i).Some?
    {
      |list.items|
    }

    /** isFull: full exactly when the last slot the capacity allows holds an item */
    predicate IsFull(): (full: bool)
      reads list
      ensures full <==> GetItem(Capacity(kind) - 1).Some?
    {
      |list.items| >= Capacity(kind)
    }

    /** getItem: the i-th item, or null when i is out of range */
    function GetItem(i: int): (r: Option<Item>)
      reads list
      ensures r.Some? <==> 0 <= i < |list.items|
      ensures r.Some? ==> r.value == list.items[i]
    {
      if i < 0 || i >= |list.items| then None else Some(list.items[i])
    }

    /**
     * getBit: -1 when the item or element number is too large. Negative
     * arguments make the source throw, so they are not accepted here.
     */
    function GetBit(item: nat, element: nat): (b: int)
      reads list
      ensures GetItem(item).Some? && element < NumElements ==> b == GetItem(item).value[element]
      ensures GetItem(item).None? || element >= NumElements ==> b == -1
    {
      if item >= |list.items| || element >= NumElements then -1 else list.items[item][element]
    }

    /** addItem (Lexicon and BiLexicon) */
    method AddItem(x: seq<int>) returns (ok: bool)
      modifies list
      ensures ok == AddAccepts(kind, old(list.items), x)
      ensures list.items == AddResult(kind, old(list.items), x)
    {
      if |x| != NumElements {
        return false;
      }
      if |list.items| >= Capacity(kind) {
        return false;
      }
      var i := 0;
      while i < |list.items|
        invariant 0 <= i <= |list.items|
        invariant forall j :: 0 <= j < i ==> !Clash(kind, list.items[j], x)
      {
        if Clash(kind, list.items[i], x) {
          return false;
        }
        i := i + 1;
      }
      list.items := SortBy<Item>(list.items + [x], SortKey(kind));
      return true;
    }

    /** inLexicon: first position of an item equal to `x`, -1 if none or `x` is malformed */
    method InLexicon(x: seq<int>) returns (pos: int)
      ensures pos == Position(list.items, x)
    {
      if |x| != NumElements {
        return -1;
      }
      var i := 0;
      while i < |list.items|
        invariant 0 <= i <= |list.items|
        invariant forall j :: 0 <= j < i ==> list.items[j] != x
      {
        var eq := ItemsEqual(list.items[i], x);
        if eq {
          return i;
        }
        i := i + 1;
      }
      return -1;
    }

    /** getItemsFromLexiconWithIndex: null for an index outside 0..MaxItems-1 */
    method GetItemsWithIndex(index: int) returns (r: Option<seq<Item>>)
      ensures r == if index < 0 || index >= MaxItems then None else Some(WithIndex(list.items, index))
    {
      if index < 0 || index >= MaxItems {
        return None;
      }
      var found := [];
      var i := 0;
      while i < |list.items|
        invariant 0 <= i <= |list.items|
        invariant found == WithIndex(list.items[..i], index)
      {
        assert list.items[..i + 1][..i] == list.items[..i];
        if list.items[i][0] == index {
          found := found + [list.items[i]];
        }
        i := i + 1;
      }
      assert list.items[..i] == list.items;
      return Some(found);
    }

    /**
     * getRandomItemsFromLexicon. The shuffle is the permutation `perm`: after
     * it, position i holds the item that was at perm[i].
     */
    method GetRandomItems(n: int, perm: seq<nat>) returns (r: Option<seq<Item>>)
      requires IsPermutation(perm, |list.items|)
      modifies list
      ensures n < 1 ==> r == None && list.items == old(list.items)
      ensures n >= 1 && DrawsWhole(kind, n, |old(list.items)|) ==>
                r == Some(old(list.items)) && list.items == old(list.items)
      ensures n >= 1 && !DrawsWhole(kind, n, |old(list.items)|) ==>
                && r == Some(Shuffle(old(list.items), perm)[..n])
                && list.items == SortBy(Shuffle(old(list.items), perm), SortKey(kind))
    {
      if n < 1 {
        return None;
      }
      if DrawsWhole(kind, n, |list.items|) {
        return Some(list.items);
      }
      list.items := Shuffle(list.items, perm);
      var drawn := [];
      var i := 0;
      while i < n
        invariant 0 <= i <= n
        invariant drawn == list.items[..i]
      {
        drawn := drawn + [list.items[i]];
        i := i + 1;
      }
      list.items := SortBy(list.items, SortKey(kind));
      return Some(drawn);
    }

    /** replaceItem, with the guard as the source evidently intends it (`pos >= size`) */
    method ReplaceItem(pos: nat, x: seq<int>)
      modifies list
      ensures list.items == ReplaceResult(old(list.items), pos, x)
    {
      if |x| != NumElements || pos >= |list.items| {
        return;
      }
      list.items := SortBy<Item>(list.items[pos := x], IndexKey);
    }

    /**
     * replaceItem as written: the guard `pos > size` lets pos == size
     * through, and lexicon.get(size) then throws IndexOutOfBoundsException.
     */
    method ReplaceItemAsWritten(pos: nat, x: seq<int>) returns (outOfBounds: bool)
      modifies list
      ensures outOfBounds <==> |x| == NumElements && pos == |old(list.items)|
      ensures !outOfBounds ==> list.items == ReplaceResult(old(list.items), pos, x)
      ensures outOfBounds ==> list.items == old(list.items)
    {
      if |x| != NumElements || pos > |list.items| {
        return false;
      }
      if pos == |list.items| {
        return true;
      }
      list.items := SortBy<Item>(list.items[pos := x], IndexKey);
      return false;
    }

    /** replaceInflection; the BiLexicon override checks nothing, so its caller must */
    method ReplaceInflection(pos: nat, x: seq<int>)
      requires kind == Bi ==> pos < |list.items| && |x| >= NumElements
      modifies list
      ensures list.items == InflectResult(kind, old(list.items), pos, x)
    {
      if kind == Mono && (|x| != NumElements || pos >= |list.items|) {
        return;
      }
      list.items := SortBy(list.items[pos := WithInflection(list.items[pos], x)], SortKey(kind));
    }

    /**
     * swapItem. BiLexicon's override reports success whenever `existing` is
     * stored, even when the inherited replaceItem ignored a malformed `x`;
     * it sorts by index inside replaceItem and then by language and index.
     */
    method SwapItem(existing: seq<int>, x: seq<int>) returns (ok: bool)
      modifies list
      ensures ok <==> Position(old(list.items), existing) >= 0 && (kind == Mono ==> |x| == NumElements)
      ensures !ok ==> list.items == old(list.items)
      ensures ok && kind == Mono ==>
                list.items == ReplaceResult(old(list.items), Position(old(list.items), existing), x)
      ensures ok && kind == Bi ==>
                list.items == SortBy(ReplaceResult(old(list.items), Position(old(list.items), existing), x), BiKey)
    {
      var pos := InLexicon(existing);
      if pos < 0 || (kind == Mono && |x| != NumElements) {
        return false;
      }
      ReplaceItem(pos, x);
      if kind == Bi {
        list.items := SortBy(list.items, BiKey);
      }
      return true;
    }

    /** swapInflection: what the genetic algorithm uses to change an item's inflection */
    method SwapInflection(existing: seq<int>, x: seq<int>) returns (ok: bool)
      requires kind == Bi && Position(list.items, existing) >= 0 ==> |x| >= NumElements
      modifies list
      ensures ok == SwapInflectionAccepts(kind, old(list.items), existing, x)
      ensures list.items == SwapInflectionResult(kind, old(list.items), existing, x)
    {
      var pos := InLexicon(existing);
      if pos < 0 || (kind == Mono && |x| != NumElements) {
        return false;
      }
      ReplaceInflection(pos, x);
      return true;
    }

    /** swapBit: overwrites one position of one item, without re-sorting */
    method SwapBit(item: nat, element: nat, value: int)
      modifies list
      ensures item >= |old(list.items)| || element >= NumElements ==> list.items == old(list.items)
      ensures item < |old(list.items)| && element < NumElements ==>
                list.items == old(list.items)[item := old(list.items)[item][element := value]]
    {
      if item >= |list.items| || element >= NumElements {
        return;
      }
      list.items := list.items[item := list.items[item][element := value]];
    }

    /** isEqual: same number of items and the same items in the same order */
    method IsEqual(other: Lexicon) returns (eq: bool)
      ensures eq <==> list.items == other.list.items
    {
      if |list.items| != |other.list.items| {
        return false;
      }
      var i := 0;
      while i < |list.items|
        invariant 0 <= i <= |list.items|
        invariant list.items[..i] == other.list.items[..i]
      {
        var same := ItemsEqual(list.items[i], other.list.items[i]);
        if !same {
          return false;
        }
        assert list.items[..i + 1] == list.items[..i] + [list.items[i]];
        assert other.list.items[..i + 1] == other.list.items[..i] + [other.list.items[i]];
        i := i + 1;
      }
      assert list.items == list.items[..i] && other.list.items == other.list.items[..i];
      return true;
    }

    /** freqOfUSAS, freqOfStandardEnglish, freqOfAAE and freqOfWhiteSpanish */
    method FreqOf(d: Dialect) returns (count: int)
      ensures count == CountDialect(list.items, d)
    {
      count := 0;
      var i := 0;
      while i < |list.items|
        invariant 0 <= i <= |list.items|
        invariant count == CountDialect(list.items[..i], d)
      {
        assert list.items[..i + 1][..i] == list.items[..i];
        if Matches(d, list.items[i]) {
          count := count + 1;
        }
        i := i + 1;
      }
      assert list.items[..i] == list.items;
    }

    /** getNumOfBitInColumn: -1 for an element number past the item */
    method GetNumOfBitInColumn(element: nat, bit: int) returns (count: int)
      ensures element >= NumElements ==> count == -1
      ensures element < NumElements ==> count == CountBit(list.items, element, bit)
    {
      if element >= NumElements {
        return -1;
      }
      count := 0;
      var i := 0;
      while i < |list.items|
        invariant 0 <= i <= |list.items|
        invariant count == CountBit(list.items[..i], element, bit)
      {
        assert list.items[..i + 1][..i] == list.items[..i];
        if list.items[i][element] == bit {
          count := count + 1;
        }
        i := i + 1;
      }
      assert list.items[..i] == list.items;
    }
  }

  // ---------------------------------------------------------------------------
  // What the operations promise
  // ---------------------------------------------------------------------------

  /**
   * The shape a lexicon keeps: within capacity, one item per index (one per
   * index and language for a BiLexicon), and a Lexicon in index order.
   */
  ghost predicate Inv(k: Kind, s: seq<Item>) {
    && |s| <= Capacity(k)
    && (k == Mono ==> Sorted(s, IndexKey) && DistinctBy(s, IndexKey))
    && DistinctBy(s, Pair)
  }

  /** The initial English and Spanish lexicons hold indices 0..MaxItems-1 in order. */
  lemma CountingLexiconInv(s: seq<Item>)
    requires |s| == MaxItems && forall i :: 0 <= i < |s| ==> s[i][0] == i
    ensures Inv(Mono, s)
  {
  }

  /** A Lexicon's list is a valid BiLexicon list too, so BiLexicon(Lexicon) starts valid. */
  lemma AdoptKeepsInv(s: seq<Item>)
    requires Inv(Mono, s)
    ensures Inv(Bi, s)
  {
  }

  /**
   * addItem: an accepted item ends up stored, the list grows by one, is in
   * key order, and keeps its shape; a refused item changes nothing.
   */
  lemma AddKeepsInv(k: Kind, s: seq<Item>, x: seq<int>)
    requires Inv(k, s)
    ensures Inv(k, AddResult(k, s, x))
    ensures AddAccepts(k, s, x) ==>
              && |AddResult(k, s, x)| == |s| + 1
              && x in AddResult(k, s, x)
              && (forall y :: y in s ==> y in AddResult(k, s, x))
              && Sorted(AddResult(k, s, x), SortKey(k))
    ensures !AddAccepts(k, s, x) ==> AddResult(k, s, x) == s
  {
    if AddAccepts(k, s, x) {
      var t: seq<Item> := s + [x];
      var r := SortBy(t, SortKey(k));
      SortBySortedPermutation(t, SortKey(k));
      SameMembers(t, r);
      AcceptedStaysDistinct(k, s, x);
      SortByDistinct(t, SortKey(k), Pair);
      if k == Mono {
        SortByDistinct(t, IndexKey, IndexKey);
      }
    }
  }

  /** Sequences with the same multiset have the same members. */
  lemma SameMembers(t: seq<Item>, r: seq<Item>)
    requires multiset(r) == multiset(t)
    ensures forall y :: y in r <==> y in t
  {
    assert forall y :: y in r <==> y in multiset(r);
    assert forall y :: y in t <==> y in multiset(t);
  }

  /** An accepted item clashes with nothing stored, so appending it keeps the keys distinct. */
  lemma AcceptedStaysDistinct(k: Kind, s: seq<Item>, x: Item)
    requires Inv(k, s) && AddAccepts(k, s, x)
    ensures DistinctBy(s + [x], Pair)
    ensures k == Mono ==> DistinctBy(s + [x], IndexKey)
  {
    var t: seq<Item> := s + [x];
    assert forall i :: 0 <= i < |s| ==> t[i] == s[i] && !Clash(k, s[i], x);
  }

  /** A full lexicon refuses every item. */
  lemma FullRefusesAdd(k: Kind, s: seq<Item>, x: seq<int>)
    requires |s| >= Capacity(k)
    ensures !AddAccepts(k, s, x) && AddResult(k, s, x) == s
  {
  }

  /** A Lexicon refuses a second item with an index it already holds, whatever its language. */
  lemma SameIndexRefused(s: seq<Item>, i: int, x: seq<int>)
    requires 0 <= i < |s| && |x| == NumElements && s[i][0] == x[0]
    ensures !AddAccepts(Mono, s, x)
  {
    assert Clash(Mono, s[i], x);
  }

  /** A BiLexicon takes an item whose index is stored only in the other language. */
  lemma BiAcceptsOtherLanguage(s: seq<Item>, x: seq<int>)
    requires |x| == NumElements && |s| < MaxItemsBi
    requires forall i :: 0 <= i < |s| ==> s[i][1] != x[1]
    ensures AddAccepts(Bi, s, x)
  {
  }

  /** getItem(inLexicon(x)) is x: the position found holds the item searched for. */
  lemma PositionRoundTrip(s: seq<Item>, x: Item)
    requires x in s
    ensures Position(s, x) >= 0
    ensures Position(s, x) < |s| && s[Position(s, x)] == x
  {
  }

  /** The items returned for an index are exactly the stored items carrying it. */
  lemma {:induction false} WithIndexMembers(s: seq<Item>, index: int)
    ensures forall y :: y in WithIndex(s, index) <==> y in s && y[0] == index
    decreases |s|
  {
    if s != [] {
      WithIndexMembers(s[..|s| - 1], index);
      assert s == s[..|s| - 1] + [s[|s| - 1]];
    }
  }

  lemma {:induction false} WithIndexKeepsDistinct<K>(s: seq<Item>, index: int, key: Item -> K)
    requires DistinctBy(s, key)
    ensures DistinctBy(WithIndex(s, index), key)
    decreases |s|
  {
    if s != [] {
      var init, last := s[..|s| - 1], s[|s| - 1];
      WithIndexKeepsDistinct(init, index, key);
      WithIndexMembers(init, index);
      var w := WithIndex(init, index);
      forall y | y in w
        ensures key(y) != key(last)
      {
        var m :| 0 <= m < |init| && init[m] == y;
        assert s[m] == y;
      }
    }
  }

  /** In a Lexicon (one item per index) at most one item carries a given index. */
  lemma AtMostOnePerIndex(s: seq<Item>, index: int)
    requires DistinctBy(s, IndexKey)
    ensures |WithIndex(s, index)| <= 1
  {
    var w := WithIndex(s, index);
    WithIndexMembers(s, index);
    WithIndexKeepsDistinct(s, index, IndexKey);
    forall i | 0 <= i < |w|
      ensures w[i][0] == index
    {
      assert w[i] in w;
    }
    assert |w| > 1 ==> IndexKey(w[0]) != IndexKey(w[1]);
  }

  /** The items drawn come from distinct stored positions. */
  lemma DrawnFromDistinctPositions(s: seq<Item>, perm: seq<nat>, n: nat)
    requires IsPermutation(perm, |s|) && n <= |s|
    ensures forall i :: 0 <= i < n ==> Shuffle(s, perm)[..n][i] == s[perm[i]]
    ensures forall i, j :: 0 <= i < j < n ==> perm[i] != perm[j]
  {
  }

  /**
   * After a draw from a Lexicon the re-sort puts every item back where it
   * was: a Lexicon in index order with one item per index comes out of
   * getRandomItemsFromLexicon unchanged.
   */
  lemma DrawLeavesLexiconUnchanged(s: seq<Item>, perm: seq<nat>)
    requires Inv(Mono, s) && IsPermutation(perm, |s|)
    ensures SortBy(Shuffle(s, perm), SortKey(Mono)) == s
  {
    ResortAfterShuffle(s, perm, IndexKey);
  }

  /** After a draw from a BiLexicon the list holds the same items in language-then-index order. */
  lemma DrawResortsBiLexicon(s: seq<Item>, perm: seq<nat>)
    requires IsPermutation(perm, |s|)
    ensures Sorted(SortBy(Shuffle(s, perm), BiKey), BiKey)
    ensures forall y :: y in SortBy(Shuffle(s, perm), BiKey) <==> y in s
  {
    var p := Shuffle(s, perm);
    SortBySortedPermutation(p, BiKey);
    ShuffleMembers(s, perm);
    assert forall y :: y in SortBy(p, BiKey) <==> y in multiset(SortBy(p, BiKey));
    assert forall y :: y in p <==> y in multiset(p);
  }

  /**
   * replaceInflection never changes an index or a language: the multiset of
   * (index, language) pairs is the same afterwards.
   */
  lemma InflectKeepsPairs(k: Kind, s: seq<Item>, pos: nat, x: seq<int>)
    requires k == Bi ==> pos < |s| && |x| >= NumElements
    ensures multiset(Map(Pair, InflectResult(k, s, pos, x))) == multiset(Map(Pair, s))
  {
    if !(k == Mono && (|x| != NumElements || pos >= |s|)) {
      var t := s[pos := WithInflection(s[pos], x)];
      InflectionKeepsPairList(s, pos, x);
      SortByMap(t, SortKey(k), Pair);
    }
  }

  lemma InflectionKeepsPairList(s: seq<Item>, pos: nat, x: seq<int>)
    requires pos < |s| && |x| >= NumElements
    ensures Map(Pair, s[pos := WithInflection(s[pos], x)]) == Map(Pair, s)
  {
    var t := s[pos := WithInflection(s[pos], x)];
    forall i | 0 <= i < |s|
      ensures Map(Pair, t)[i] == Map(Pair, s)[i]
    {
      MapIndex(Pair, t, i);
      MapIndex(Pair, s, i);
    }
  }

  /** replaceInflection keeps the lexicon's shape. */
  lemma InflectKeepsInv(k: Kind, s: seq<Item>, pos: nat, x: seq<int>)
    requires k == Bi ==> pos < |s| && |x| >= NumElements
    requires Inv(k, s)
    ensures Inv(k, InflectResult(k, s, pos, x))
  {
    if !(k == Mono && (|x| != NumElements || pos >= |s|)) {
      var t := s[pos := WithInflection(s[pos], x)];
      assert DistinctBy(t, Pair) by {
        forall i, j | 0 <= i < j < |t|
          ensures Pair(t[i]) != Pair(t[j])
        {
          assert Pair(t[i]) == Pair(s[i]) && Pair(t[j]) == Pair(s[j]);
        }
      }
      SortByDistinct(t, SortKey(k), Pair);
      SortBySortedPermutation(t, SortKey(k));
      if k == Mono {
        assert DistinctBy(t, IndexKey) by {
          forall i, j | 0 <= i < j < |t|
            ensures IndexKey(t[i]) != IndexKey(t[j])
          {
            assert IndexKey(t[i]) == IndexKey(s[i]) && IndexKey(t[j]) == IndexKey(s[j]);
          }
        }
        SortByDistinct(t, IndexKey, IndexKey);
      }
    }
  }

  /**
   * A change of inflection leaves the key order as it was, so in a list
   * already in key order the re-sort moves nothing: only positions 2 and 3
   * of the one item change.
   */
  lemma InflectInPlace(k: Kind, s: seq<Item>, pos: nat, x: seq<int>)
    requires pos < |s| && |x| == NumElements
    requires Sorted(s, SortKey(k))
    ensures InflectResult(k, s, pos, x) == s[pos := WithInflection(s[pos], x)]
  {
    var t := s[pos := WithInflection(s[pos], x)];
    assert Sorted(t, SortKey(k)) by {
      forall i, j | 0 <= i < j < |t|
        ensures SortKey(k)(t[i]) <= SortKey(k)(t[j])
      {
        assert SortKey(k)(t[i]) == SortKey(k)(s[i]) && SortKey(k)(t[j]) == SortKey(k)(s[j]);
      }
    }
    SortedIsFixpoint(t, SortKey(k));
  }
}
