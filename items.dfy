/*
 * Linguistic items of the Spanglish model. An item is an int[4]:
 *   position 0  the index (which of the MaxItems words it is),
 *   position 1  the language bit (1 = Spanish, 0 = English),
 *   positions 2 and 3  the inflection bits.
 * Stored items always have exactly NumElements positions, so that is part
 * of the type here; arrays handed in from outside are plain seq<int> and are
 * checked where the source checks them.
 */
module Items {

  datatype Option<T> = None | Some(value: T)

  /** Model.maxItems: number of word indices */
  const MaxItems: int := 10
  /** Model.numElements: positions per item */
  const NumElements: int := 4
  /** BiLexicon.maxItemsBi: a bilingual lexicon holds two languages */
  const MaxItemsBi: int := MaxItems * 2

  type Item = s: seq<int> | |s| == 4 witness [0, 0, 0, 0]

  /** The dialects the model counts; each is a fixed pattern of positions 1..3. */
  datatype Dialect = USAS | StandardEnglish | AAE | WhiteSpanish

  /** the values of positions 1..3 that mark a dialect */
  function Pattern(d: Dialect): seq<int> {
    match d
    case USAS => [1, 0, 1]
    case StandardEnglish => [0, 1, 0]
    case AAE => [0, 0, 1]
    case WhiteSpanish => [1, 1, 0]
  }

  /** isUSAS, isSE, isAAE, isWS: an item of a dialect carries bits in positions 1..3 */
  predicate Matches(d: Dialect, it: Item): (m: bool)
    ensures m ==> 0 <= it[1] <= 1 && 0 <= it[2] <= 1 && 0 <= it[3] <= 1
  {
    match d
    case USAS => it[1] == 1 && it[2] == 0 && it[3] == 1
    case StandardEnglish => it[1] == 0 && it[2] == 1 && it[3] == 0
    case AAE => it[1] == 0 && it[2] == 0 && it[3] == 1
    case WhiteSpanish => it[1] == 1 && it[2] == 1 && it[3] == 0
  }

  /** isUSAS: a USAS item matches no other dialect's pattern */
  predicate IsUSAS(it: Item): (u: bool)
    ensures u ==> !Matches(StandardEnglish, it) && !Matches(AAE, it) && !Matches(WhiteSpanish, it)
  {
    Matches(USAS, it)
  }

  /** Positions 1..3 of an item match a dialect exactly when they spell its pattern. */
  lemma MatchesPattern(d: Dialect, it: Item)
    ensures Matches(d, it) <==> it[1..] == Pattern(d)
  {
    if it[1..] == Pattern(d) {
      assert it[1] == Pattern(d)[0] && it[2] == Pattern(d)[1] && it[3] == Pattern(d)[2];
    }
  }

  /** An item matches at most one dialect pattern. */
  lemma DialectsExclusive(d: Dialect, e: Dialect, it: Item)
    requires Matches(d, it) && Matches(e, it)
    ensures d == e
  {
  }

  /** `it` with its inflection (positions 2 and 3) taken from `src` */
  function WithInflection(it: Item, src: seq<int>): (r: Item)
    requires |src| >= NumElements
    ensures r[0] == it[0] && r[1] == it[1]
    ensures r[2..] == src[2..NumElements]
  {
    [it[0], it[1], src[2], src[3]]
  }

  /**
   * Element-wise comparison of two int arrays, as Lexicon.itemsEqual scans
   * them: false when the lengths differ, otherwise true exactly when every
   * position agrees.
   */
  method ItemsEqual(a: seq<int>, b: seq<int>) returns (eq: bool)
    ensures eq <==> a == b
  {
    if |a| != |b| {
      return false;
    }
    var i := 0;
    while i < |a|
      invariant 0 <= i <= |a|
      invariant a[..i] == b[..i]
    {
      if a[i] != b[i] {
        return false;
      }
      i := i + 1;
    }
    assert a == a[..i] && b == b[..i];
    return true;
  }

  /**
   * Model.sameItem: equal lengths and equal at every position after the
   * index, so the same word form regardless of which index it sits at.
   */
  method SameItem(a: seq<int>, b: seq<int>) returns (same: bool)
    ensures same <==> |a| == |b| && (|a| == 0 || a[1..] == b[1..])
  {
    if |a| != |b| {
      return false;
    }
    var i := 1;
    while i < |a|
      invariant 1 <= i <= |a| || (|a| == 0 && i == 1)
      invariant forall k :: 1 <= k < i && k < |a| ==> a[k] == b[k]
    {
      if a[i] != b[i] {
        return false;
      }
      i := i + 1;
    }
    return true;
  }

  /** Model.sameInflection: equal lengths and equal from position 2 on. */
  method SameInflection(a: seq<int>, b: seq<int>) returns (same: bool)
    ensures same <==> |a| == |b| && (|a| <= 2 || a[2..] == b[2..])
  {
    if |a| != |b| {
      return false;
    }
    var i := 2;
    while i < |a|
      invariant 2 <= i && (|a| >= 2 ==> i <= |a|)
      invariant forall k :: 2 <= k < i && k < |a| ==> a[k] == b[k]
    {
      if a[i] != b[i] {
        return false;
      }
      i := i + 1;
    }
    return true;
  }

  /** Items that agree everywhere but the index are the same item form. */
  lemma SameItemWeakerThanEqual(a: seq<int>, b: seq<int>)
    requires |a| == |b| && |a| > 2 && a[1..] == b[1..]
    ensures a[2..] == b[2..]
  {
    assert a[2..] == a[1..][1..] && b[2..] == b[1..][1..];
  }

  /** Number of items in `s` matching dialect `d`. */
  function CountDialect(s: seq<Item>, d: Dialect): (n: nat)
    ensures n <= |s|
  {
    if s == [] then 0
    else CountDialect(s[..|s| - 1], d) + (if Matches(d, s[|s| - 1]) then 1 else 0)
  }

  /**
   * The four dialect patterns are mutually exclusive, so their counts
   * together never exceed the number of items.
   */
  lemma {:induction false} DialectCountsBounded(s: seq<Item>)
    ensures CountDialect(s, USAS) + CountDialect(s, StandardEnglish)
          + CountDialect(s, AAE) + CountDialect(s, WhiteSpanish) <= |s|
    decreases |s|
  {
    if s != [] {
      DialectCountsBounded(s[..|s| - 1]);
    }
  }

  /** Number of items of `s` whose position `e` holds `bit`. */
  function CountBit(s: seq<Item>, e: nat, bit: int): (n: nat)
    requires e < NumElements
    ensures n <= |s|
  {
    if s == [] then 0
    else CountBit(s[..|s| - 1], e, bit) + (if s[|s| - 1][e] == bit then 1 else 0)
  }

  /** The two values of a bit column split the items between them. */
  lemma {:induction false} BitCountsPartition(s: seq<Item>, e: nat, bit: int, other: int)
    requires e < NumElements && bit != other
    requires forall i :: 0 <= i < |s| ==> s[i][e] == bit || s[i][e] == other
    ensures CountBit(s, e, bit) + CountBit(s, e, other) == |s|
    decreases |s|
  {
    if s != [] {
      BitCountsPartition(s[..|s| - 1], e, bit, other);
    }
  }
}
