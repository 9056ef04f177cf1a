/*
 * GeneticAlg: what a listener does with a heard item when it "runs the GA".
 * A stored item with the heard index is picked as the candidate, crossed bit
 * by bit with the heard item, mutated, and, if accepted, its inflection is
 * overwritten in the lexicon it came from. The coin flips, the candidate
 * pick, the mutation flips and the accept decision (a draw below the
 * product of the two fitness values) are all given as inputs.
 */
module Genetics {
  import opened Items
  import opened Sorting
  import opened Lexicons
  import opened TempLexicons

  /** The items with the heard index, from the first lexicon, then the second. */
  function Candidates(first: seq<Item>, second: Option<seq<Item>>, index: int): seq<Item> {
    if index < 0 || index >= MaxItems then []
    else WithIndex(first, index) + (if second.Some? then WithIndex(second.value, index) else [])
  }

  /** The only candidate, or the one drawn by nextInt(size). */
  function Choose(cands: seq<Item>, pick: nat): Item
    requires |cands| > 0
  {
    cands[DrawIndex(|cands|, pick)]
  }

  /**
   * The crossed item: the heard index, the candidate's language, and from
   * position 2 on the candidate's bit where the coin says so, else the heard
   * item's bit.
   */
  function Cross(heard: Item, changed: Item, fromChanged: seq<bool>): Item
    requires |fromChanged| >= NumElements - 2
  {
    [heard[0], changed[1],
     if fromChanged[0] then changed[2] else heard[2],
     if fromChanged[1] then changed[3] else heard[3]]
  }

  /** A flipped bit becomes 0 if it was 1, and 1 otherwise. */
  function Flip(b: int): int { if b == 1 then 0 else 1 }

  /** The mutated item: positions 2 and 3 flipped where `flips` says so. */
  function Mutated(it: Item, flips: seq<bool>): Item
    requires |flips| >= NumElements - 2
  {
    [it[0], it[1],
     if flips[0] then Flip(it[2]) else it[2],
     if flips[1] then Flip(it[3]) else it[3]]
  }

  /** Every candidate carries the heard index and is stored in one of the two lexicons. */
  lemma CandidatesFromLexicons(first: seq<Item>, second: Option<seq<Item>>, index: int)
    ensures forall y :: y in Candidates(first, second, index) ==>
              y[0] == index && (y in first || (second.Some? && y in second.value))
    ensures 0 <= index < MaxItems ==>
              forall y :: y in first && y[0] == index ==> y in Candidates(first, second, index)
  {
    WithIndexMembers(first, index);
    if second.Some? {
      WithIndexMembers(second.value, index);
    }
  }

  /** The chosen candidate is one of the candidates. */
  lemma ChooseIsCandidate(cands: seq<Item>, pick: nat)
    requires |cands| > 0
    ensures Choose(cands, pick) in cands
  {
  }

  /**
   * Crossing keeps the heard index and the candidate's language, and takes
   * every later bit from one of the two parents.
   */
  lemma CrossTakesFromParents(heard: Item, changed: Item, fromChanged: seq<bool>)
    requires |fromChanged| >= NumElements - 2
    ensures Cross(heard, changed, fromChanged)[0] == heard[0]
    ensures Cross(heard, changed, fromChanged)[1] == changed[1]
    ensures forall i :: 2 <= i < NumElements ==>
              Cross(heard, changed, fromChanged)[i] == changed[i] || Cross(heard, changed, fromChanged)[i] == heard[i]
  {
  }

  /** Mutation touches only positions 2 and up; unflipped bits stay, flipped bits swap 0 and 1. */
  lemma MutateOnlyInflection(it: Item, flips: seq<bool>)
    requires |flips| >= NumElements - 2
    ensures Mutated(it, flips)[..2] == it[..2]
    ensures forall i :: 2 <= i < NumElements ==>
              Mutated(it, flips)[i] == (if flips[i - 2] then Flip(it[i]) else it[i])
    ensures forall i :: 2 <= i < NumElements && (it[i] == 0 || it[i] == 1) ==>
              (flips[i - 2] <==> Mutated(it, flips)[i] != it[i])
  {
  }

  /**
   * Whichever lexicon the accepted item is written to, its items keep their
   * indices and languages: only inflections change.
   */
  lemma CommitKeepsIndexAndLanguage(k: Kind, s: seq<Item>, changed: Item, x: Item)
    ensures multiset(Map(Pair, SwapInflectionResult(k, s, changed, x))) == multiset(Map(Pair, s))
  {
    if SwapInflectionAccepts(k, s, changed, x) {
      InflectKeepsPairs(k, s, Position(s, changed), x);
    }
  }

  /** ... and the lexicon's invariant (capacity, unique keys, order) is kept. */
  lemma CommitKeepsInv(k: Kind, s: seq<Item>, changed: Item, x: Item)
    requires Lexicons.Inv(k, s)
    ensures Lexicons.Inv(k, SwapInflectionResult(k, s, changed, x))
  {
    if SwapInflectionAccepts(k, s, changed, x) {
      InflectKeepsInv(k, s, Position(s, changed), x);
    }
  }

  class GeneticAlg {
    /** the listener's lexicons and memory buffer, as they were when the GA was created */
    const first: Lexicon
    const second: Lexicon?
    const buffer: TempLexicon?
    /** the heard item */
    const item: Item
    var changedItem: Option<Item>
    var newItem: Option<Item>

    /** GeneticAlg(person, heardItem) */
    constructor(first: Lexicon, second: Lexicon?, buffer: TempLexicon?, item: Item)
      ensures this.first == first && this.second == second && this.buffer == buffer && this.item == item
      ensures changedItem == None && newItem == None
    {
      this.first, this.second, this.buffer, this.item := first, second, buffer, item;
      changedItem, newItem := None, None;
    }

    /** the second lexicon's items, when the listener has one */
    function SecondItems(): Option<seq<Item>>
      reads if second != null then {second.list} else {}
    {
      if second != null then Some(second.list.items) else None
    }

    /**
     * crossOverItem: nothing changes when no stored item has the heard index;
     * otherwise the chosen candidate becomes changedItem and the crossed
     * item newItem.
     */
    method CrossOverItem(pick: nat, fromChanged: seq<bool>)
      requires |fromChanged| >= NumElements - 2
      modifies this
      ensures var c := Candidates(first.list.items, SecondItems(), item[0]);
        && (c == [] ==> changedItem == old(changedItem) && newItem == old(newItem))
        && (c != [] ==> changedItem == Some(Choose(c, pick)) && newItem == Some(Cross(item, Choose(c, pick), fromChanged)))
    {
      var cands := [];
      var fromFirst := first.GetItemsWithIndex(item[0]);
      if fromFirst.Some? {
        cands := cands + fromFirst.value;
      }
      if second != null {
        var fromSecond := second.GetItemsWithIndex(item[0]);
        if fromSecond.Some? {
          cands := cands + fromSecond.value;
        }
      }
      assert cands == Candidates(first.list.items, SecondItems(), item[0]);
      if |cands| == 0 {
        return;
      }
      var changed: Item;
      if |cands| == 1 {
        changed := cands[0];
      } else {
        changed := cands[pick % |cands|];
      }
      assert changed == Choose(cands, pick);
      changedItem := Some(changed);
      var crossed := CrossWith(changed, fromChanged);
      newItem := Some(crossed);
    }

    /**
     * crossOverItem's loop: the index from the heard item, the language from
     * the changed one, and each inflection position from the parent the
     * coin names.
     */
    method CrossWith(changed: Item, fromChanged: seq<bool>) returns (crossed: Item)
      requires |fromChanged| >= NumElements - 2
      ensures crossed == Cross(item, changed, fromChanged)
    {
      crossed := [item[0], changed[1], 0, 0];
      var i := 2;
      while i < NumElements
        invariant 2 <= i <= NumElements
        invariant crossed[..2] == [item[0], changed[1]]
        invariant forall j :: 2 <= j < i ==> crossed[j] == Cross(item, changed, fromChanged)[j]
      {
        if fromChanged[i - 2] {
          crossed := crossed[i := changed[i]];
        } else {
          crossed := crossed[i := item[i]];
        }
        i := i + 1;
      }
      assert crossed[0] == crossed[..2][0] && crossed[1] == crossed[..2][1];
    }

    /**
     * The hearing count calcMicroFitness uses: from the buffer as it was
     * when the GA was created, and 1 when there was no buffer or it lacks
     * the item. The rest of the fitness is floating point and enters only
     * through the accept decision.
     */
    method MicroFitnessCount() returns (timesHeard: int)
      ensures buffer != null && HeardPosition(buffer.entries, item) >= 0 ==> timesHeard == TimesHeard(buffer.entries, item)
      ensures buffer == null || HeardPosition(buffer.entries, item) < 0 ==> timesHeard == 1
    {
      if buffer != null {
        var pos := buffer.HeardItem(item);
        if pos >= 0 {
          return buffer.entries[pos][0];
        }
      }
      return 1;
    }

    /** mutate: flips positions 2 and up of newItem where `flips` says so */
    method Mutate(flips: seq<bool>)
      requires newItem.Some? && |flips| >= NumElements - 2
      modifies this
      ensures changedItem == old(changedItem)
      ensures newItem == Some(Mutated(old(newItem.value), flips))
    {
      var it := newItem.value;
      var i := 2;
      while i < NumElements
        invariant 2 <= i <= NumElements
        invariant it[..2] == old(newItem.value)[..2]
        invariant forall j :: 2 <= j < i ==> it[j] == Mutated(old(newItem.value), flips)[j]
        invariant forall j :: i <= j < NumElements ==> it[j] == old(newItem.value)[j]
      {
        if flips[i - 2] {
          if it[i] == 1 {
            it := it[i := 0];
          } else {
            it := it[i := 1];
          }
        }
        i := i + 1;
      }
      assert it == Mutated(old(newItem.value), flips) by {
        assert it[0] == it[..2][0] && it[1] == it[..2][1];
      }
      newItem := Some(it);
    }

    /**
     * The write at the end of calcInsertion, when the accept draw fell below
     * the fitness: into the first lexicon if the candidate is stored there
     * and is not USAS, else into the second lexicon if it is stored there.
     */
    method Commit(accept: bool)
      requires changedItem.Some? <==> newItem.Some?
      requires second != null ==> second.list != first.list
      modifies first.list, if second != null then {second.list} else {}
      ensures !accept || changedItem.None? ==>
                unchanged(first.list) && (second != null ==> unchanged(second.list))
      ensures accept && changedItem.Some? ==>
                var c, n := changedItem.value, newItem.value;
                if Position(old(first.list.items), c) >= 0 && !IsUSAS(c) then
                  && first.list.items == SwapInflectionResult(first.kind, old(first.list.items), c, n)
                  && (second != null ==> unchanged(second.list))
                else if second != null && Position(old(second.list.items), c) >= 0 then
                  && second.list.items == SwapInflectionResult(second.kind, old(second.list.items), c, n)
                  && unchanged(first.list)
                else
                  unchanged(first.list) && (second != null ==> unchanged(second.list))
    {
      if !accept || changedItem.None? {
        return;
      }
      var c, n := changedItem.value, newItem.value;
      var inFirst := first.InLexicon(c);
      if inFirst >= 0 && !IsUSAS(c) {
        var _ := first.SwapInflection(c, n);
      } else if second != null {
        var inSecond := second.InLexicon(c);
        if inSecond >= 0 {
          var _ := second.SwapInflection(c, n);
        }
      }
    }

    /**
     * calcInsertion on a freshly built GA: cross over, mutate when there was
     * a candidate, and write the result back when the accept draw says so.
     */
    method CalcInsertion(pick: nat, fromChanged: seq<bool>, flips: seq<bool>, accept: bool)
      requires changedItem.None? && newItem.None?
      requires |fromChanged| >= NumElements - 2 && |flips| >= NumElements - 2
      requires second != null ==> second.list != first.list
      modifies this, first.list, if second != null then {second.list} else {}
      ensures var cands := Candidates(old(first.list.items), old(SecondItems()), item[0]);
        if cands == [] then
          && changedItem.None? && newItem.None?
          && unchanged(first.list) && (second != null ==> unchanged(second.list))
        else
          var c := Choose(cands, pick);
          var n := Mutated(Cross(item, c, fromChanged), flips);
          && changedItem == Some(c) && newItem == Some(n)
          && (!accept ==> unchanged(first.list) && (second != null ==> unchanged(second.list)))
          && (accept && Position(old(first.list.items), c) >= 0 && !IsUSAS(c) ==>
                && first.list.items == SwapInflectionResult(first.kind, old(first.list.items), c, n)
                && (second != null ==> unchanged(second.list)))
          && (accept && (Position(old(first.list.items), c) < 0 || IsUSAS(c)) ==>
                unchanged(first.list) &&
                (second != null ==> second.list.items == SwapInflectionResult(second.kind, old(second.list.items), c, n)))
    {
      CrossOverItem(pick, fromChanged);
      if newItem.Some? {
        Mutate(flips);
      }
      Commit(accept);
    }
  }
}
