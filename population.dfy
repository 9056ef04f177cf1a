/*
 * Model: the population's bookkeeping. It keeps three lists of agents:
 * everyone visible on the grid (visibleList), the ordinary people
 * (personList, without teachers and babysitters) and the latinos
 * (latinoList). Births, deaths, retirements, white flight and immigration
 * change them. Alongside sit the sampling helpers, the status activation
 * order, and the statistics and common-lexicon tables recomputed from the
 * lists. Every random draw is a parameter.
 */
module Population {
  import opened Items
  import opened Sorting
  import opened Lexicons
  import opened TempLexicons
  import opened Space
  import opened Agents
  import opened Census

  // ---------------------------------------------------------------------------
  // Draws
  // ---------------------------------------------------------------------------

  /** the draws a newborn consumes: gender, race and class coins, placement points */
  datatype BirthDraw = BirthDraw(genderDraw: nat, raceCoin: bool, classCoin: bool, placeDraws: seq<(nat, nat, nat)>)

  /**
   * The draws one person's turn in ageAndReproduce consumes: the placement
   * points of the yearly updateStats, the death-curve test, tempRand below
   * the birth rate of the person's race, one mate-probability test per
   * position of personList, the pick among the candidates, the test against
   * marriageProb, and the baby's own draws.
   */
  datatype TurnDraw = TurnDraw(
    ageDraws: seq<(nat, nat, nat)>, deathCoin: bool, birthCoin: bool,
    mateCoins: seq<bool>, matePick: nat, marryCoin: bool, birth: BirthDraw)

  /** the draws of one createTeacher call: the 70% female test and one draw run per attempt */
  datatype HireDraw = HireDraw(femaleCoin: bool, attempts: seq<seq<nat>>)

  function TurnAt(ds: seq<TurnDraw>, i: nat): TurnDraw {
    if i < |ds| then ds[i] else TurnDraw([], false, false, [], 0, false, BirthDraw(0, false, false, []))
  }

  function HireAt(ds: seq<HireDraw>, i: nat): HireDraw {
    if i < |ds| then ds[i] else HireDraw(false, [])
  }

  function RunAt(ds: seq<seq<nat>>, i: nat): seq<nat> {
    if i < |ds| then ds[i] else []
  }

  function NatAt(ds: seq<nat>, i: nat): nat {
    if i < |ds| then ds[i] else 0
  }

  function CoinAt(ds: seq<bool>, i: nat): bool {
    i < |ds| && ds[i]
  }

  // ---------------------------------------------------------------------------
  // Sampling (getRandomPersonFromArray)
  // ---------------------------------------------------------------------------

  /**
   * getRandomPersonFromArray(pArray): null for an empty list, the sole
   * element of a one-element list, otherwise the element at nextInt(n).
   */
  function PickPerson(ps: seq<Person>, pick: nat): (r: Person?)
    ensures r == null <==> ps == []
    ensures r != null ==> r in ps
    ensures |ps| == 1 ==> r == ps[0]
  {
    if ps == [] then null else ps[DrawIndex(|ps|, pick)]
  }

  /** the k-th draw of a retry loop over a list of at least two people: draws[k] mod n */
  function Drawn(ps: seq<Person>, draws: seq<nat>, k: nat): (r: Person)
    requires |ps| >= 2
    ensures r in ps
  {
    ps[NatAt(draws, k) % |ps|]
  }

  /**
   * getRandomPersonFromArray(pArray, ageClass). Draw 0 comes first; while
   * the person drawn has another age class, draw again, and give up with
   * null after redraw n + 1, whatever it drew. So the answer is the first of
   * draws 0 .. n of that age class, or null when none of them is.
   */
  method PickOfClass(ps: seq<Person>, ageClass: int, draws: seq<nat>) returns (r: Person?)
    ensures ps == [] ==> r == null
    ensures |ps| == 1 ==> r == ps[0]
    ensures |ps| >= 2 && r != null ==>
              exists k :: 0 <= k <= |ps| && r == Drawn(ps, draws, k) && r.ageClass == ageClass &&
                forall j :: 0 <= j < k ==> Drawn(ps, draws, j).ageClass != ageClass
    ensures |ps| >= 2 && r == null ==> forall k :: 0 <= k <= |ps| ==> Drawn(ps, draws, k).ageClass != ageClass
  {
    if |ps| == 0 {
      return null;
    }
    if |ps| == 1 {
      return ps[0];
    }
    var n := |ps|;
    var p := Drawn(ps, draws, 0);
    var count := 0;
    while p.ageClass != ageClass
      invariant 0 <= count <= n
      invariant p == Drawn(ps, draws, count)
      invariant forall j :: 0 <= j < count ==> Drawn(ps, draws, j).ageClass != ageClass
      decreases n - count
    {
      p := Drawn(ps, draws, count + 1);
      count := count + 1;
      if count > n {
        return null;
      }
    }
    return p;
  }

  /**
   * getRandomPersonFromArray(pArray, ageClass, gender): the same loop with
   * the gender compared too, except that after redraw n + 1 it returns that
   * last draw, which need not match, instead of null.
   */
  method PickOfClassAndGender(ps: seq<Person>, ageClass: int, gender: int, draws: seq<nat>) returns (r: Person?)
    ensures ps == [] <==> r == null
    ensures r != null ==> r in ps
    ensures |ps| == 1 ==> r == ps[0]
    ensures |ps| >= 2 ==>
              || (exists k :: 0 <= k <= |ps| && r == Drawn(ps, draws, k) && r.ageClass == ageClass && r.gender == gender &&
                    forall j :: 0 <= j < k ==> !(Drawn(ps, draws, j).ageClass == ageClass && Drawn(ps, draws, j).gender == gender))
              || (r == Drawn(ps, draws, |ps| + 1) &&
                    forall k :: 0 <= k <= |ps| ==> !(Drawn(ps, draws, k).ageClass == ageClass && Drawn(ps, draws, k).gender == gender))
  {
    if |ps| == 0 {
      return null;
    }
    if |ps| == 1 {
      return ps[0];
    }
    var n := |ps|;
    var p := Drawn(ps, draws, 0);
    var count := 0;
    while p.ageClass != ageClass || p.gender != gender
      invariant 0 <= count <= n
      invariant p == Drawn(ps, draws, count)
      invariant forall j :: 0 <= j < count ==> !(Drawn(ps, draws, j).ageClass == ageClass && Drawn(ps, draws, j).gender == gender)
      decreases n - count
    {
      p := Drawn(ps, draws, count + 1);
      count := count + 1;
      if count > n {
        return p;
      }
    }
    return p;
  }

  // ---------------------------------------------------------------------------
  // Views of the lists
  // ---------------------------------------------------------------------------

  /** the white people under 25, in list order (whiteFlight's candidates) */
  function WhiteYouth(ps: seq<Person>): seq<Person>
    reads set q | q in ps
  {
    if ps == [] then []
    else
      var q := ps[|ps| - 1];
      WhiteYouth(ps[..|ps| - 1]) + (if q.race == White && q.age < 25 then [q] else [])
  }

  lemma {:induction false} WhiteYouthMembers(ps: seq<Person>)
    ensures forall q :: q in WhiteYouth(ps) <==> q in ps && q.race == White && q.age < 25
    decreases |ps|
  {
    if ps != [] {
      WhiteYouthMembers(ps[..|ps| - 1]);
      assert ps == ps[..|ps| - 1] + [ps[|ps| - 1]];
    }
  }

  /** findMate's acceptance test for candidate q, with the mate-probability draw as `coin` */
  predicate Acceptable(p: Person, q: Person, coin: bool)
    reads p, q
  {
    q.IsFertile() && p.gender != q.gender && p != q && coin && q.spouse == null
  }

  /** the candidates findMate collects from `ps`, coin i belonging to position i */
  function MateCandidates(p: Person, ps: seq<Person>, coins: seq<bool>): seq<Person>
    reads p, set q | q in ps
  {
    if ps == [] then []
    else
      var q := ps[|ps| - 1];
      MateCandidates(p, ps[..|ps| - 1], coins) + (if Acceptable(p, q, CoinAt(coins, |ps| - 1)) then [q] else [])
  }

  /** every candidate is in the list, fertile, of the other gender, not p itself, and single */
  lemma {:induction false} MateCandidatesSound(p: Person, ps: seq<Person>, coins: seq<bool>)
    ensures forall q :: q in MateCandidates(p, ps, coins) ==>
              q in ps && q.IsFertile() && q.gender != p.gender && q != p && q.spouse == null
    decreases |ps|
  {
    if ps != [] {
      MateCandidatesSound(p, ps[..|ps| - 1], coins);
    }
  }

  /** A person alone in personList finds no candidate, whatever the draws. */
  lemma LoneSeekerHasNoCandidate(p: Person, coins: seq<bool>)
    ensures MateCandidates(p, [p], coins) == []
  {
    assert [p][..0] == [];
  }

  /** (race, age class) of everyone in the list, in order */
  function Demographics(ps: seq<Person>): seq<(int, int)>
    reads set q | q in ps
  {
    if ps == [] then [] else Demographics(ps[..|ps| - 1]) + [(ps[|ps| - 1].race, ps[|ps| - 1].ageClass)]
  }

  lemma {:induction false} DemographicsIndex(ps: seq<Person>)
    ensures |Demographics(ps)| == |ps|
    ensures forall i :: 0 <= i < |ps| ==> Demographics(ps)[i] == (ps[i].race, ps[i].ageClass)
    decreases |ps|
  {
    if ps != [] {
      DemographicsIndex(ps[..|ps| - 1]);
    }
  }

  /** calcStats' counters over a list of people partition it as TallyPartitions says */
  lemma TallyOfPeople(ps: seq<Person>)
    ensures Tally(Demographics(ps)).blackAdults + Tally(Demographics(ps)).latinoAdults <= Tally(Demographics(ps)).adults
    ensures Tally(Demographics(ps)).blackStudents + Tally(Demographics(ps)).latinoStudents <= Tally(Demographics(ps)).students
    ensures (forall q :: q in ps ==> White <= q.race <= Latino) ==>
              Tally(Demographics(ps)).white + Tally(Demographics(ps)).black + Tally(Demographics(ps)).latino == |ps|
    ensures (forall q :: q in ps ==> Child <= q.ageClass <= Adult) ==>
              Tally(Demographics(ps)).children + Tally(Demographics(ps)).students + Tally(Demographics(ps)).adults == |ps|
  {
    var d := Demographics(ps);
    DemographicsIndex(ps);
    TallyPartitions(d);
    if forall q :: q in ps ==> White <= q.race <= Latino {
      forall k | 0 <= k < |d|
        ensures White <= d[k].0 <= Latino
      {
        assert ps[k] in ps;
      }
    }
    if forall q :: q in ps ==> Child <= q.ageClass <= Adult {
      forall k | 0 <= k < |d|
        ensures Child <= d[k].1 <= Adult
      {
        assert ps[k] in ps;
      }
    }
  }

    /** the first-lexicon items of everyone in the list (of the latinos only, with latinoOnly), in order */
  function FirstItems(ps: seq<Person>, latinoOnly: bool): seq<Item>
    reads set q | q in ps, set q | q in ps :: q.firstLang, set q | q in ps :: q.firstLang.list
  {
    if ps == [] then []
    else
      var q := ps[|ps| - 1];
      FirstItems(ps[..|ps| - 1], latinoOnly) + (if !latinoOnly || q.race == Latino then q.firstLang.list.items else [])
  }

  /** the USAS items of everyone's first lexicon, in order */
  function UsasItems(ps: seq<Person>): seq<Item>
    reads set q | q in ps, set q | q in ps :: q.firstLang, set q | q in ps :: q.firstLang.list
  {
    if ps == [] then [] else UsasItems(ps[..|ps| - 1]) + UsasOf(ps[|ps| - 1].firstLang.list.items)
  }

  /** the USAS items of a list are USAS items of the list */
  lemma {:induction false} UsasOfMembers(s: seq<Item>)
    ensures forall it :: it in UsasOf(s) ==> it in s && IsUSAS(it)
    decreases |s|
  {
    if s != [] {
      UsasOfMembers(s[..|s| - 1]);
      assert s == s[..|s| - 1] + [s[|s| - 1]];
    }
  }

  /** the number of teachers (or babysitters) in a list */
  function RoleCount(s: seq<Person>, role: Role): nat {
    if s == [] then 0 else RoleCount(s[..|s| - 1], role) + (if s[|s| - 1].role == role then 1 else 0)
  }

  /** a person tagged with the status it had when the order was taken */
  function StatusKey<U>(e: (int, U)): int { e.0 }

  function Holder<U>(e: (int, U)): U { e.1 }

  /**
   * Sorting a tagged list by its tags keeps the pairs it had, puts the tags
   * in ascending order and permutes the holders.
   */
  lemma TaggedSort<U>(tagged: seq<(int, U)>)
    ensures |SortBy(tagged, StatusKey)| == |tagged|
    ensures forall e :: e in SortBy(tagged, StatusKey) ==> e in tagged
    ensures forall i, j :: 0 <= i < j < |SortBy(tagged, StatusKey)| ==> SortBy(tagged, StatusKey)[i].0 <= SortBy(tagged, StatusKey)[j].0
    ensures multiset(Map(Holder, SortBy(tagged, StatusKey))) == multiset(Map(Holder, tagged))
    ensures forall j :: 0 <= j < |tagged| ==> Map(Holder, SortBy(tagged, StatusKey))[j] == SortBy(tagged, StatusKey)[j].1
  {
    var r := SortBy(tagged, StatusKey);
    SortBySortedPermutation(tagged, StatusKey);
    SortByMap(tagged, StatusKey, Holder);
    forall e | e in r
      ensures e in tagged
    {
      assert e in multiset(r);
    }
    forall j | 0 <= j < |r|
      ensures Map(Holder, r)[j] == r[j].1
    {
      MapIndex(Holder, r, j);
    }
  }

  /**
   * calcIndexFreqOfUSAS's inner loop over one person's items: each USAS item
   * is appended to the list and counted in the bin of its index.
   */
  method BinUsas(items: seq<Item>, usas: seq<Item>, bins: seq<int>) returns (usas': seq<Item>, bins': seq<int>)
    requires bins == Bins(usas)
    requires forall k :: 0 <= k < |usas| ==> 0 <= usas[k][0] < MaxItems
    requires forall it :: it in items && IsUSAS(it) ==> 0 <= it[0] < MaxItems
    ensures usas' == usas + UsasOf(items)
    ensures bins' == Bins(usas')
    ensures forall k :: 0 <= k < |usas'| ==> 0 <= usas'[k][0] < MaxItems
  {
    usas', bins' := usas, bins;
    var j := 0;
    while j < |items|
      invariant 0 <= j <= |items|
      invariant usas' == usas + UsasOf(items[..j])
      invariant bins' == Bins(usas')
      invariant forall k :: 0 <= k < |usas'| ==> 0 <= usas'[k][0] < MaxItems
    {
      assert items[..j + 1][..j] == items[..j];
      var it := items[j];
      if IsUSAS(it) {
        BinsSnoc(usas', it);
        bins' := bins'[it[0] := bins'[it[0]] + 1];
        usas' := usas' + [it];
      }
      j := j + 1;
    }
    assert items[..j] == items;
  }

  /** calcIndexFreqOfUSAS's outer loop: BinUsas over everyone's first lexicon in turn */
  method BinPeople(ps: seq<Person>) returns (usas: seq<Item>, bins: seq<int>)
    requires forall q, it :: q in ps && it in q.firstLang.list.items && IsUSAS(it) ==> 0 <= it[0] < MaxItems
    ensures usas == UsasItems(ps)
    ensures bins == Bins(usas)
    ensures forall k :: 0 <= k < |usas| ==> 0 <= usas[k][0] < MaxItems
  {
    usas, bins := [], Bins([]);
    var i := 0;
    while i < |ps|
      invariant 0 <= i <= |ps|
      invariant usas == UsasItems(ps[..i])
      invariant bins == Bins(usas)
      invariant forall k :: 0 <= k < |usas| ==> 0 <= usas[k][0] < MaxItems
    {
      assert ps[..i + 1][..i] == ps[..i];
      usas, bins := BinUsas(ps[i].firstLang.list.items, usas, bins);
      i := i + 1;
    }
    assert ps[..i] == ps;
  }

  /** every item heard, in order, by one TempLexicon */
  method HearEach(tally: TempLexicon, items: seq<Item>)
    modifies tally
    ensures tally.entries == HearAll(old(tally.entries), items)
  {
    var j := 0;
    while j < |items|
      invariant 0 <= j <= |items|
      invariant tally.entries == HearAll(old(tally.entries), items[..j])
    {
      assert items[..j + 1][..j] == items[..j];
      var _ := tally.HearItem(items[j]);
      j := j + 1;
    }
    assert items[..j] == items;
  }

  /**
   * calcCommonLex's first loop, for one of its two tallies: every
   * first-lexicon item of `ps` (of its latinos only, with latinoOnly) heard
   * into a fresh TempLexicon.
   */
  method HearFirstLexicons(ps: seq<Person>, latinoOnly: bool) returns (tally: TempLexicon)
    ensures fresh(tally)
    ensures tally.entries == HearAll([], old(FirstItems(ps, latinoOnly)))
  {
    tally := new TempLexicon.Empty();
    var i := 0;
    while i < |ps|
      invariant 0 <= i <= |ps|
      invariant fresh(tally)
      invariant tally.entries == HearAll([], old(FirstItems(ps[..i], latinoOnly)))
    {
      assert ps[..i + 1][..i] == ps[..i];
      ghost var heard := old(FirstItems(ps[..i], latinoOnly));
      if !latinoOnly || ps[i].race == Latino {
        var items := ps[i].firstLang.list.items;
        assert items == old(ps[i].firstLang.list.items);
        assert old(FirstItems(ps[..i + 1], latinoOnly)) == heard + items;
        HearEach(tally, items);
        HearAllAppend([], heard, items);
      } else {
        assert old(FirstItems(ps[..i + 1], latinoOnly)) == heard + [];
        assert heard + [] == heard;
      }
      i := i + 1;
    }
    assert ps[..i] == ps;
  }

  /** calcCommonLex's second loop, for one tally: the most heard item of each index that has one */
  method CommonTable(tally: TempLexicon) returns (table: seq<Item>)
    ensures table == CommonOf(tally.entries, MaxItems)
  {
    table := [];
    var k := 0;
    while k < MaxItems
      invariant 0 <= k <= MaxItems
      invariant table == CommonOf(tally.entries, k)
    {
      var item := tally.GetMostHeardWithIndex(k);
      if item.Some? {
        table := table + [item.value];
      }
      k := k + 1;
    }
  }

  /** everyone's spouse, when there is one, lies inside `frame` */
  ghost predicate SpousesWithin(ps: seq<Person>, frame: set<Person?>)
    reads set q | q in ps
  {
    forall q :: q in ps ==> q.spouse == null || q.spouse in frame
  }

  /** the people a turn may change: everyone taking a turn, everyone in `pl`, and their spouses */
  ghost function TurnFrame(ps: seq<Person>, pl: seq<Person>): set<Person?>
    reads set q | q in ps
  {
    (set q | q in ps) + (set q | q in pl) + (set q | q in ps && q.spouse != null :: q.spouse)
  }

  /** The frame holds everyone taking a turn, everyone in `pl` and every spouse. */
  lemma TurnFrameCovers(ps: seq<Person>, pl: seq<Person>)
    ensures SpousesWithin(ps, TurnFrame(ps, pl))
    ensures forall q :: q in ps ==> q in TurnFrame(ps, pl)
    ensures forall q :: q in pl ==> q in TurnFrame(ps, pl)
  {
  }

  /** everyone's recorded cell lies on the grid */
  ghost predicate OnGridAll(ps: seq<Person>)
    reads set q | q in ps :: q.pos
  {
    forall q :: q in ps ==> InGrid(q.pos.x, q.pos.y)
  }

  /** what createPerson promises of every baby born this step */
  ghost predicate Newborns(bs: seq<Person>)
    reads set b | b in bs, set b | b in bs :: b.pos
  {
    forall b :: b in bs ==> b.role == Plain && b.age == 0 && b.spouse == null &&
                            InRegion(Home, b.pos.x, b.pos.y) && InGrid(b.pos.x, b.pos.y)
  }

  /** the babies so far, with one more when a turn produced one */
  function Grow(bs: seq<Person>, baby: Person?): (r: seq<Person>)
    ensures |r| == |bs| + (if baby == null then 0 else 1)
  {
    if baby == null then bs else bs + [baby]
  }

  /** the babies' latinoList flags, kept in step with Grow */
  function GrowFlags(flags: seq<bool>, baby: Person?, joins: bool): (r: seq<bool>)
    ensures |r| == |flags| + (if baby == null then 0 else 1)
  {
    if baby == null then flags else flags + [joins]
  }

  /**
   * Turn i of ageAndReproduce seen from personList and latinoList: after
   * the departures among the first i people and the babies so far, one more
   * possible departure and one more possible baby.
   */
  lemma TurnBook(ps: seq<Person>, i: int, left: seq<bool>, leaves: bool, pl0: seq<Person>, ll0: seq<Person>,
                 pl: seq<Person>, ll: seq<Person>, pl': seq<Person>, ll': seq<Person>,
                 babies: seq<Person>, flags: seq<bool>, baby: Person?, joins: bool)
    requires 0 <= i < |ps| && |left| == i && |flags| == |babies| && ps[i] !in babies && (joins ==> baby != null)
    requires pl == RemoveAll(pl0, Select(ps[..i], left, true))
    requires ll == RemoveAll(ll0, Select(ps[..i], left, true)) + Select(babies, flags, true)
    requires pl' == if leaves then RemoveFirst(pl, ps[i]) else pl
    requires ll' == (if leaves then RemoveFirst(ll, ps[i]) else ll) + (if joins then [baby as Person] else [])
    ensures pl' == RemoveAll(pl0, Select(ps[..i + 1], left + [leaves], true))
    ensures ll' == RemoveAll(ll0, Select(ps[..i + 1], left + [leaves], true)) +
                   Select(Grow(babies, baby), GrowFlags(flags, baby, joins), true)
  {
    var p := ps[i];
    var gone := Select(ps[..i], left, true);
    SelectPrefix(ps, i, left, leaves, true);
    assert Select(ps[..i + 1], left + [leaves], true) == if leaves then gone + [p] else gone;
    RemoveAllSnoc(pl0, gone, p);
    var y: Person := if baby == null then p else baby;
    LatinoBook(ll0, gone, babies, flags, p, leaves, y, baby != null, joins);
  }

  /** Those who stayed and the babies behind them all stand on the grid. */
  lemma OnGridKeptAndBorn(ps: seq<Person>, left: seq<bool>, babies: seq<Person>)
    requires |left| == |ps| && OnGridAll(ps) && Newborns(babies)
    ensures OnGridAll(Select(ps, left, false) + babies)
  {
    SelectWithin(ps, left, false);
  }

  /** Region.isFull for the home region */
  predicate HomeFull(w: World)
    requires w.Valid()
    reads w.grid
  {
    ModelRegionsOnGrid();
    FullWith(Home, |w.OccupantsInRegion(Home, Home.xMax + 1)|)
  }

  // ---------------------------------------------------------------------------
  // The model
  // ---------------------------------------------------------------------------

  class Model {
    const world: World
    var visibleList: seq<Person>
    var personList: seq<Person>
    var latinoList: seq<Person>
    /** the handle the next agent created receives */
    var nextHandle: AgentId
    var stats: Stats
    var numTotal: int
    var indexFreqOfUSAS: seq<int>
    var usasList: seq<Item>
    var commonLex: seq<Item>
    var commonLexTotal: seq<Item>
    var commonSecondLex: seq<Item>
    var commonSecondLexTotal: seq<Item>

    /** an empty population on the given grid */
    constructor(world: World)
      ensures this.world == world && visibleList == [] && personList == [] && latinoList == []
      ensures stats == NoStats && numTotal == 0 && nextHandle == 0
    {
      this.world := world;
      visibleList, personList, latinoList := [], [], [];
      nextHandle := 0;
      stats, numTotal := NoStats, 0;
      indexFreqOfUSAS, usasList := [], [];
      commonLex, commonLexTotal, commonSecondLex, commonSecondLexTotal := [], [], [], [];
    }

    /** the grid has the model's size and everyone visible records a cell on it */
    ghost predicate Placed()
      reads this, set q | q in visibleList :: q.pos
    {
      world.Valid() && OnGridAll(visibleList)
    }

    // -------------------------------------------------------------------------
    // Arrivals and departures
    // -------------------------------------------------------------------------

    /**
     * whiteFlight: one of the white people under 25 in personList, drawn
     * with getRandomPersonFromArray, leaves visibleList and personList (but
     * not latinoList); nothing happens when there is nobody like that.
     */
    method WhiteFlight(pick: nat) returns (leaver: Person?)
      modifies this`visibleList, this`personList
      ensures leaver == PickPerson(old(WhiteYouth(personList)), pick)
      ensures leaver == null ==> visibleList == old(visibleList) && personList == old(personList)
      ensures leaver != null ==> leaver in old(personList) && leaver.race == White && leaver.age < 25
      ensures leaver != null ==> visibleList == RemoveFirst(old(visibleList), leaver as Person)
      ensures leaver != null ==> personList == RemoveFirst(old(personList), leaver as Person)
      ensures leaver != null ==> |personList| == |old(personList)| - 1
      ensures leaver != null && Distinct(old(personList)) ==> leaver !in personList
    {
      var ps := personList;
      var whitePeople: seq<Person> := [];
      var i := 0;
      while i < |ps|
        invariant 0 <= i <= |ps|
        invariant whitePeople == WhiteYouth(ps[..i])
      {
        assert ps[..i + 1][..i] == ps[..i];
        var q := ps[i];
        if q.race == White && q.age < 25 {
          whitePeople := whitePeople + [q];
        }
        i := i + 1;
      }
      assert ps[..i] == ps;
      if |whitePeople| == 0 {
        return null;
      }
      var who: Person := PickPerson(whitePeople, pick);
      WhiteYouthMembers(ps);
      RemoveFirstOnce(ps, who);
      visibleList := RemoveFirst(visibleList, who);
      personList := RemoveFirst(ps, who);
      leaver := who;
    }

    /**
     * immigrate: a new latino adult (the race constructor) joins all three
     * lists and is then moved into one of its regions a second time.
     * `settled` is the cell the constructor's placement left it on.
     */
    method Immigrate(ageDraw: nat, genderDraw: nat, socialClass: int, settleDraws: seq<(nat, nat, nat)>,
                     moveDraws: seq<(nat, nat, nat)>, latinoMajority: bool) returns (p: Person, ghost settled: Point)
      requires Placed()
      modifies this`visibleList, this`personList, this`latinoList, this`nextHandle, world.grid
      ensures fresh(p) && p.role == Plain && p.race == Latino && p.handle == old(nextHandle)
      ensures p.ageClass == Adult && p.firstLang.list.items == NativeItems(Latino) && p.secondLang == null
      ensures visibleList == old(visibleList) + [p]
      ensures personList == old(personList) + [p]
      ensures latinoList == old(latinoList) + [p]
      ensures InRegion(Work, p.pos.x, p.pos.y) ==>
                world.RelocatedTwice(p.handle, 0, 0, settled.0, settled.1, p.pos.x, p.pos.y)
      ensures !InRegion(Work, p.pos.x, p.pos.y) ==> p.pos.x == 0 && p.pos.y == 0 && unchanged(world.grid)
      ensures Placed()
    {
      p := new Person.Settler(nextHandle, Latino, ageDraw, genderDraw, socialClass, world, settleDraws, latinoMajority);
      settled := (p.pos.x, p.pos.y);
      nextHandle := nextHandle + 1;
      latinoList := latinoList + [p];
      personList := personList + [p];
      visibleList := visibleList + [p];
      ModelRegionsOnGrid();
      label Settled:
      var moved := world.MovePersonToAnyRegion(p.handle, p.pos, p.regions, moveDraws);
      assert !InRegion(Work, 0, 0);
      if moved {
        assert world.Relocated@Settled(p.handle, settled.0, settled.1, p.pos.x, p.pos.y);
      }
    }

    // -------------------------------------------------------------------------
    // Mates
    // -------------------------------------------------------------------------

    /** marry: each becomes the other's spouse */
    method Marry(p1: Person, p2: Person)
      modifies p1`spouse, p2`spouse
      ensures p1.spouse == p2 && p2.spouse == p1
    {
      p1.spouse := p2;
      p2.spouse := p1;
    }

    /** findMate's scan of personList */
    method CollectMates(p: Person, coins: seq<bool>) returns (mates: seq<Person>)
      ensures mates == MateCandidates(p, personList, coins)
    {
      var ps := personList;
      mates := [];
      var i := 0;
      while i < |ps|
        invariant 0 <= i <= |ps|
        invariant mates == MateCandidates(p, ps[..i], coins)
      {
        assert ps[..i + 1][..i] == ps[..i];
        var q := ps[i];
        if q.IsFertile() && p.gender != q.gender && p != q && CoinAt(coins, i) && q.spouse == null {
          mates := mates + [q];
        }
        i := i + 1;
      }
      assert ps[..i] == ps;
    }

    /**
     * findMate: a married person's mate is the spouse. Otherwise one of the
     * accepted candidates is drawn, and with the marriage draw the two
     * marry, but only when there is a mate (see FindMateAsWritten).
     */
    method FindMate(p: Person, coins: seq<bool>, pick: nat, marryCoin: bool) returns (mate: Person?)
      modifies p`spouse, set q | q in personList
      ensures old(p.spouse) != null ==> mate == old(p.spouse) && unchanged(p) && unchanged(set q | q in personList)
      ensures old(p.spouse) == null ==> mate == PickPerson(old(MateCandidates(p, personList, coins)), pick)
      ensures old(p.spouse) == null && mate != null ==>
                mate in personList && old(mate.IsFertile()) && old(mate.spouse) == null && mate.gender != p.gender && mate != p
      ensures old(p.spouse) == null && marryCoin && mate != null ==> p.spouse == mate && mate.spouse == p
      ensures !(old(p.spouse) == null && marryCoin && mate != null) ==> unchanged(p) && unchanged(set q | q in personList)
      ensures unchanged(set q | q in personList && q != p && q != mate)
      ensures mate != null ==> mate.Snapshot() == old(mate.Snapshot()).(spouse := mate.spouse)
      ensures p.Snapshot() == old(p.Snapshot()).(spouse := p.spouse)
    {
      if p.spouse != null {
        return p.spouse;
      }
      var mates := CollectMates(p, coins);
      MateCandidatesSound(p, personList, coins);
      mate := PickPerson(mates, pick);
      if marryCoin && mate != null {
        Marry(p, mate);
      }
    }

    /**
     * findMate as written: the marriage draw calls marry(p, mate) even when
     * no candidate was found, and marry(p, null) then fails on
     * p2.setSpouse (after setting p's spouse to null). `failed` reports
     * that failure.
     */
    method FindMateAsWritten(p: Person, coins: seq<bool>, pick: nat, marryCoin: bool) returns (mate: Person?, failed: bool)
      modifies p`spouse, set q | q in personList
      ensures old(p.spouse) != null ==> mate == old(p.spouse) && !failed
      ensures old(p.spouse) == null && marryCoin && old(MateCandidates(p, personList, coins)) == [] ==> failed
      ensures failed <==> old(p.spouse) == null && marryCoin && mate == null
    {
      if p.spouse != null {
        return p.spouse, false;
      }
      var mates := CollectMates(p, coins);
      MateCandidatesSound(p, personList, coins);
      mate := PickPerson(mates, pick);
      failed := false;
      if marryCoin {
        failed := MarryAsWritten(p, mate);
      }
    }

    /** marry with a possibly null second partner: p1's spouse is set, then p2.setSpouse fails on null */
    method MarryAsWritten(p1: Person, p2: Person?) returns (failed: bool)
      modifies p1`spouse, if p2 != null then {p2} else {}
      ensures p1.spouse == p2 || (p2 != null && p1 == p2 && p1.spouse == p1)
      ensures failed <==> p2 == null
      ensures p2 != null ==> p2.spouse == p1
    {
      p1.spouse := p2;
      if p2 == null {
        return true;
      }
      p2.spouse := p1;
      return false;
    }

    // -------------------------------------------------------------------------
    // Statistics
    // -------------------------------------------------------------------------

    /**
     * calcStats: the counters recounted from personList (teachers and
     * babysitters are not in it) and numTotal its size. The calls to
     * calcCommonLex and calcIndexFreqOfUSAS that close the source's
     * calcStats are the separate methods CalcCommonLex and
     * CalcIndexFreqOfUSAS below.
     */
    method CalcStats()
      modifies this`stats, this`numTotal
      ensures stats == Tally(Demographics(personList)) && numTotal == |personList|
      ensures stats.blackAdults + stats.latinoAdults <= stats.adults
      ensures stats.blackStudents + stats.latinoStudents <= stats.students
      ensures (forall q :: q in personList ==> White <= q.race <= Latino) ==>
                stats.white + stats.black + stats.latino == numTotal
      ensures (forall q :: q in personList ==> Child <= q.ageClass <= Adult) ==>
                stats.children + stats.students + stats.adults == numTotal
    {
      var ps := personList;
      var st := NoStats;
      var i := 0;
      while i < |ps|
        invariant 0 <= i <= |ps|
        invariant st == Tally(Demographics(ps[..i]))
      {
        assert ps[..i + 1][..i] == ps[..i];
        // the race counters, then the age-class counters, as Count spells out
        st := Count(st, ps[i].race, ps[i].ageClass);
        i := i + 1;
      }
      assert ps[..i] == ps;
      TallyOfPeople(ps);
      stats := st;
      numTotal := |ps|;
    }

    /**
     * calcIndexFreqOfUSAS: USASList collects every USAS item of everyone's
     * first lexicon, and bin i counts those with index i. An index outside
     * 0 .. maxItems - 1 would fall outside the bins, so none may occur.
     */
    method CalcIndexFreqOfUSAS()
      requires forall q, it :: q in personList && it in q.firstLang.list.items && IsUSAS(it) ==> 0 <= it[0] < MaxItems
      modifies this`indexFreqOfUSAS, this`usasList
      ensures usasList == UsasItems(personList)
      ensures indexFreqOfUSAS == Bins(usasList)
      ensures Sum(indexFreqOfUSAS) == |usasList|
    {
      var usas, temp := BinPeople(personList);
      BinsSum(usas);
      usasList, indexFreqOfUSAS := usas, temp;
    }

    /**
     * calcCommonLex: every first-lexicon item of personList is heard into
     * one TempLexicon, and those of latinos into a second; the tables then
     * hold, index by index, the most heard item of that index. The source
     * runs the two tallies side by side in one pair of loops; they share no
     * state, so here each is built in turn. The
     * second-lexicon tallies the source also builds are never read, so
     * both second-lexicon tables stay empty.
     */
    method CalcCommonLex()
      modifies this`commonLex, this`commonLexTotal, this`commonSecondLex, this`commonSecondLexTotal
      ensures commonLexTotal == CommonOf(HearAll([], old(FirstItems(personList, false))), MaxItems)
      ensures commonLex == CommonOf(HearAll([], old(FirstItems(personList, true))), MaxItems)
      ensures commonSecondLex == [] && commonSecondLexTotal == []
      ensures |commonLexTotal| <= MaxItems && |commonLex| <= MaxItems
      ensures forall i, j :: 0 <= i < j < |commonLexTotal| ==> commonLexTotal[i][0] < commonLexTotal[j][0]
      ensures forall i, j :: 0 <= i < j < |commonLex| ==> commonLex[i][0] < commonLex[j][0]
    {
      var tally := HearFirstLexicons(personList, false);
      var latinoTally := HearFirstLexicons(personList, true);
      var total := CommonTable(tally);
      var latino := CommonTable(latinoTally);
      CommonShape(tally.entries, MaxItems);
      CommonShape(latinoTally.entries, MaxItems);
      commonLexTotal, commonLex, commonSecondLex, commonSecondLexTotal := total, latino, [], [];
    }

    // -------------------------------------------------------------------------
    // Births, deaths and retirements
    // -------------------------------------------------------------------------

    /**
     * createPerson: no baby when the home region is full. Otherwise the
     * birth constructor makes one, with p1 as its first parent, and it is
     * moved into the home region (it stays on its recorded cell (0, 0),
     * also in the home region, when the placement draws run out).
     */
    method CreatePerson(p1: Person, p2: Person, d: BirthDraw, latinoMajority: bool) returns (baby: Person?)
      requires world.Valid()
      modifies this`nextHandle, world.grid
      ensures baby == null <==> old(HomeFull(world))
      ensures baby == null ==> unchanged(world.grid) && nextHandle == old(nextHandle)
      ensures baby != null ==> fresh(baby) && fresh(baby.pos) && baby.handle == old(nextHandle) && nextHandle == old(nextHandle) + 1
      ensures baby != null ==> baby.role == Plain && baby.age == 0 && baby.spouse == null && baby.parents == [p1, p2]
      ensures baby != null ==> baby.race == BirthRace(p1.race, p2.race, d.raceCoin)
      ensures baby != null ==> InRegion(Home, baby.pos.x, baby.pos.y) && InGrid(baby.pos.x, baby.pos.y)
      ensures baby != null ==>
                || world.Relocated(baby.handle, 0, 0, baby.pos.x, baby.pos.y)
                || (baby.pos.x == 0 && baby.pos.y == 0 && unchanged(world.grid))
    {
      ModelRegionsOnGrid();
      var full := world.RegionIsFull(Home);
      if full {
        return null;
      }
      var b := new Person.Born(nextHandle, p1, p2, d.genderDraw, d.raceCoin, d.classCoin, latinoMajority);
      nextHandle := nextHandle + 1;
      var placed := world.MovePersonToAnyRegion(b.handle, b.pos, b.regions, d.placeDraws);
      assert InRegion(b.regions[0], b.pos.x, b.pos.y);
      baby := b;
    }

    /**
     * The departure half of a turn in ageAndReproduce: when die() or
     * retire() fires, the spouse's back-reference is cleared and the person
     * leaves personList and latinoList (the caller's iterator takes it out
     * of visibleList). The person's own spouse field is left as it was.
     */
    method Depart(p: Person, deathCoin: bool) returns (leaves: bool)
      modifies this`personList, this`latinoList, p.spouse
      ensures leaves == old(p.Die(deathCoin) || p.Retire())
      ensures leaves ==> personList == RemoveFirst(old(personList), p) && latinoList == RemoveFirst(old(latinoList), p)
      ensures !leaves ==> personList == old(personList) && latinoList == old(latinoList)
      ensures old(p.spouse) != null ==>
                old(p.spouse).Snapshot() == old(p.spouse.Snapshot()).(spouse := if leaves then null else old(p.spouse.spouse))
      ensures p.spouse == old(p.spouse) || (leaves && old(p.spouse) == p && p.spouse == null)
    {
      leaves := p.Die(deathCoin) || p.Retire();
      if leaves {
        if p.spouse != null {
          p.spouse.spouse := null;
        }
        personList := RemoveFirst(personList, p);
        latinoList := RemoveFirst(latinoList, p);
      }
    }

    /**
     * The reproduction half of a turn: with the birth draw (tempRand below
     * the birth rate of the person's race, for races 0 to 2) and a fertile
     * person, a mate is found; with a mate and room at home, a baby is born.
     */
    method Reproduce(p: Person, d: TurnDraw, latinoMajority: bool) returns (mate: Person?, baby: Person?)
      requires world.Valid()
      modifies p`spouse, (set q | q in personList), this`nextHandle, world.grid
      ensures var tries := d.birthCoin && p.IsFertile() && White <= p.race <= Latino;
        && (!tries ==> mate == null && baby == null && unchanged(p) && unchanged(set q | q in personList)
                       && unchanged(world.grid) && nextHandle == old(nextHandle))
        && (tries && old(p.spouse) != null ==> mate == old(p.spouse))
        && (tries && old(p.spouse) == null ==> mate == PickPerson(old(MateCandidates(p, personList, d.mateCoins)), d.matePick))
        && (tries && mate != null ==> (baby == null <==> old(HomeFull(world))))
      ensures baby != null ==> mate != null && baby.parents == [p, mate]
      ensures mate == null ==> baby == null && unchanged(world.grid) && nextHandle == old(nextHandle)
      ensures baby == null ==> unchanged(world.grid) && nextHandle == old(nextHandle)
      ensures baby != null ==> fresh(baby) && fresh(baby.pos) && baby.handle == old(nextHandle) && nextHandle == old(nextHandle) + 1
      ensures baby != null ==> baby.role == Plain && baby.age == 0 && baby.spouse == null
      ensures baby != null ==> InRegion(Home, baby.pos.x, baby.pos.y) && InGrid(baby.pos.x, baby.pos.y)
      ensures p.Snapshot() == old(p.Snapshot()).(spouse := p.spouse)
      ensures unchanged(set q | q in personList && q != p && q != mate)
      ensures mate != null ==> mate.Snapshot() == old(mate.Snapshot()).(spouse := mate.spouse)
      ensures p.spouse == old(p.spouse) || p.spouse == mate
      ensures mate != null && mate != p ==> mate.spouse == old(mate.spouse) || mate.spouse == p
      ensures mate != null ==> mate == old(p.spouse) || mate in personList
    {
      mate, baby := null, null;
      if d.birthCoin && p.IsFertile() && White <= p.race <= Latino {
        mate := FindMate(p, d.mateCoins, d.matePick, d.marryCoin);
        if mate != null {
          // createPerson repeats the home.isFull() test made here, with the same answer
          baby := CreatePerson(p, mate, d.birth, latinoMajority);
        }
      }
    }

    /** updateAge followed by the departure test, as a turn begins */
    method AgeAndDepart(p: Person, d: TurnDraw, latinoMajority: bool, ghost others: seq<Person>) returns (leaves: bool)
      requires world.Valid() && InGrid(p.pos.x, p.pos.y)
      modifies p, p.pos, world.grid, this`personList, this`latinoList, p.spouse
      ensures InGrid(p.pos.x, p.pos.y)
      ensures leaves ==> personList == RemoveFirst(old(personList), p) && latinoList == RemoveFirst(old(latinoList), p)
      ensures !leaves ==> personList == old(personList) && latinoList == old(latinoList)
      ensures forall q :: q in personList ==> q in old(personList)
      ensures p.spouse == null || p.spouse == old(p.spouse)
      ensures forall q | q in others :: q.spouse == null || q.spouse == old(q.spouse)
    {
      p.UpdateAge(world, d.ageDraws, latinoMajority);
      assert forall q | q in others :: q.spouse == old(q.spouse);
      leaves := Depart(p, d.deathCoin);
      RemoveFirstSubset(old(personList), p);
    }

    /** Reproduce, and a baby of a latino parent joins latinoList at once */
    method Breed(p: Person, d: TurnDraw, latinoMajority: bool, ghost others: seq<Person>) returns (baby: Person?, joins: bool)
      requires world.Valid()
      modifies p`spouse, (set q | q in personList), this`nextHandle, this`latinoList, world.grid
      ensures joins == (baby != null && p.race == Latino)
      ensures latinoList == old(latinoList) + (if joins then [baby as Person] else [])
      ensures baby != null ==> fresh(baby) && fresh(baby.pos) && baby.handle == old(nextHandle) && nextHandle == old(nextHandle) + 1
      ensures baby != null ==> baby.role == Plain && baby.age == 0 && baby.spouse == null && |baby.parents| == 2 && baby.parents[0] == p
      ensures baby != null ==> InRegion(Home, baby.pos.x, baby.pos.y) && InGrid(baby.pos.x, baby.pos.y)
      ensures baby == null ==> nextHandle == old(nextHandle)
      ensures forall q :: q in others ==> q.spouse == old(q.spouse) || q.spouse == p || q.spouse in personList
    {
      var mate;
      mate, baby := Reproduce(p, d, latinoMajority);
      joins := baby != null && p.race == Latino;
      if joins {
        latinoList := latinoList + [baby as Person];
      }
    }

    /**
     * One person's turn in ageAndReproduce: updateAge, the departure test,
     * then reproduction, which runs even for someone who has just left. A
     * baby of a latino parent also joins latinoList at once.
     */
    method Turn(p: Person, d: TurnDraw, latinoMajority: bool, ghost others: seq<Person>) returns (leaves: bool, baby: Person?, joins: bool)
      requires world.Valid() && InGrid(p.pos.x, p.pos.y)
      modifies p, p.pos, world.grid, this`personList, this`latinoList, this`nextHandle, (set q | q in personList), p.spouse
      ensures InGrid(p.pos.x, p.pos.y)
      ensures leaves ==> personList == RemoveFirst(old(personList), p)
      ensures !leaves ==> personList == old(personList)
      ensures joins == (baby != null && p.race == Latino)
      ensures latinoList == (if leaves then RemoveFirst(old(latinoList), p) else old(latinoList)) +
                            (if joins then [baby as Person] else [])
      ensures baby != null ==> fresh(baby) && fresh(baby.pos) && baby.handle == old(nextHandle) && nextHandle == old(nextHandle) + 1
      ensures baby != null ==> baby.role == Plain && baby.age == 0 && baby.spouse == null && |baby.parents| == 2 && baby.parents[0] == p
      ensures baby != null ==> InRegion(Home, baby.pos.x, baby.pos.y) && InGrid(baby.pos.x, baby.pos.y)
      ensures baby == null ==> nextHandle == old(nextHandle)
      ensures forall q :: q in others ==> q.spouse == null || q.spouse == old(q.spouse) || q.spouse == p || q.spouse in old(personList)
    {
      leaves := AgeAndDepart(p, d, latinoMajority, others);
      baby, joins := Breed(p, d, latinoMajority, others);
    }

    /**
     * createTeacher: the 70% draw picks female, otherwise male; adults of
     * that gender are drawn from personList while the one drawn is latino,
     * and a Teacher cloned from the first non-latino joins visibleList. The
     * source redraws without bound and fails on an empty personList; here
     * each attempt has its own draws, and no teacher is made when the
     * attempts run out or personList is empty.
     */
    method CreateTeacher(d: HireDraw) returns (teacher: Person?)
      modifies this`visibleList, this`nextHandle
      ensures personList == [] ==> teacher == null
      ensures teacher == null ==> visibleList == old(visibleList) && nextHandle == old(nextHandle)
      ensures teacher != null ==> fresh(teacher) && fresh(teacher.pos) && teacher.role == Teacher && teacher.race != Latino
      ensures teacher != null ==> teacher.pos.x == 0 && teacher.pos.y == 0 && InGrid(teacher.pos.x, teacher.pos.y)
      ensures teacher != null ==> visibleList == old(visibleList) + [teacher] && nextHandle == old(nextHandle) + 1
      ensures teacher != null ==> exists q :: q in personList && q.race == teacher.race && q.gender == teacher.gender &&
                                              q.firstLang == teacher.firstLang
    {
      var gender := if d.femaleCoin then Female else Male;
      var p := PickOfClassAndGender(personList, Adult, gender, RunAt(d.attempts, 0));
      var k := 1;
      while p != null && p.race == Latino && k < |d.attempts|
        invariant p != null ==> p in personList
        invariant p == null <==> personList == []
        invariant visibleList == old(visibleList) && nextHandle == old(nextHandle)
        decreases |d.attempts| - k
      {
        p := PickOfClassAndGender(personList, Adult, gender, d.attempts[k]);
        k := k + 1;
      }
      if p == null || p.race == Latino {
        return null;
      }
      teacher := new Person.CloneTeacher(nextHandle, p);
      nextHandle := nextHandle + 1;
      visibleList := visibleList + [teacher];
    }

    /**
     * createBabySitter: a BabySitter cloned from an adult woman drawn from
     * personList joins visibleList. On an empty personList the source
     * fails; here no babysitter is made.
     */
    method CreateBabySitter(draws: seq<nat>) returns (sitter: Person?)
      modifies this`visibleList, this`nextHandle
      ensures sitter == null <==> personList == []
      ensures sitter == null ==> visibleList == old(visibleList) && nextHandle == old(nextHandle)
      ensures sitter != null ==> fresh(sitter) && fresh(sitter.pos) && sitter.role == BabySitter
      ensures sitter != null ==> sitter.pos.x == 0 && sitter.pos.y == 0 && InGrid(sitter.pos.x, sitter.pos.y)
      ensures sitter != null ==> visibleList == old(visibleList) + [sitter] && nextHandle == old(nextHandle) + 1
      ensures sitter != null ==> exists q :: q in personList && q.race == sitter.race && q.gender == sitter.gender
    {
      var p := PickOfClassAndGender(personList, Adult, Female, draws);
      if p == null {
        return null;
      }
      sitter := new Person.CloneBabySitter(nextHandle, p);
      nextHandle := nextHandle + 1;
      visibleList := visibleList + [sitter];
    }

    /** ageAndReproduce's closing loop: one createTeacher per teacher who retired */
    method HireTeachers(n: nat, ds: seq<HireDraw>) returns (hired: seq<Person>)
      modifies this`visibleList, this`nextHandle
      ensures visibleList == old(visibleList) + hired && |hired| <= n
      ensures personList == [] ==> hired == []
      ensures forall t :: t in hired ==> fresh(t) && fresh(t.pos) && t.role == Teacher && t.race != Latino && InGrid(t.pos.x, t.pos.y)
    {
      hired := [];
      var i := 0;
      while i < n
        invariant 0 <= i <= n && |hired| <= i
        invariant visibleList == old(visibleList) + hired
        invariant personList == [] ==> hired == []
        invariant forall t :: t in hired ==> fresh(t) && fresh(t.pos) && t.role == Teacher && t.race != Latino && InGrid(t.pos.x, t.pos.y)
      {
        var t := CreateTeacher(HireAt(ds, i));
        if t != null {
          hired := hired + [t];
        }
        i := i + 1;
      }
    }

    /** ageAndReproduce's last loop: one createBabySitter per babysitter who retired */
    method HireBabySitters(n: nat, ds: seq<seq<nat>>) returns (hired: seq<Person>)
      modifies this`visibleList, this`nextHandle
      ensures visibleList == old(visibleList) + hired
      ensures |hired| == if personList == [] then 0 else n
      ensures forall s :: s in hired ==> fresh(s) && fresh(s.pos) && s.role == BabySitter && InGrid(s.pos.x, s.pos.y)
    {
      hired := [];
      var i := 0;
      while i < n
        invariant 0 <= i <= n && |hired| == if personList == [] then 0 else i
        invariant visibleList == old(visibleList) + hired
        invariant forall s :: s in hired ==> fresh(s) && fresh(s.pos) && s.role == BabySitter && InGrid(s.pos.x, s.pos.y)
      {
        var s := CreateBabySitter(RunAt(ds, i));
        if s != null {
          hired := hired + [s];
        }
        i := i + 1;
      }
    }

    /** one turn, with what the loop of ageAndReproduce keeps track of */
    method Step(p: Person, d: TurnDraw, latinoMajority: bool, ghost ps: seq<Person>, ghost frame: set<Person?>,
                ghost babies: seq<Person>)
      returns (leaves: bool, baby: Person?, joins: bool)
      requires world.Valid() && p in ps && p in frame && OnGridAll(ps) && SpousesWithin(ps, frame)
      requires forall q :: q in personList ==> q in frame
      requires Newborns(babies) && forall b :: b in babies ==> b !in frame
      requires forall b, q :: b in babies && q in ps ==> b.pos != q.pos
      modifies p, p.pos, world.grid, this`personList, this`latinoList, this`nextHandle, (set q | q in personList), p.spouse
      ensures OnGridAll(ps) && SpousesWithin(ps, frame)
      ensures forall q :: q in personList ==> q in old(personList)
      ensures personList == if leaves then RemoveFirst(old(personList), p) else old(personList)
      ensures joins == (baby != null && p.race == Latino)
      ensures latinoList == (if leaves then RemoveFirst(old(latinoList), p) else old(latinoList)) +
                            (if joins then [baby as Person] else [])
      ensures Newborns(Grow(babies, baby))
      ensures baby != null ==> fresh(baby) && fresh(baby.pos) && baby !in frame && forall q :: q in ps ==> baby.pos != q.pos
    {
      leaves, baby, joins := Turn(p, d, latinoMajority, ps);
      RemoveFirstSubset(old(personList), p);
      assert OnGridAll(ps) by {
        forall q | q in ps
          ensures InGrid(q.pos.x, q.pos.y)
        {
          if q.pos != p.pos {
            assert old(InGrid(q.pos.x, q.pos.y));
          }
        }
      }
    }

    /**
     * What the loop of ageAndReproduce keeps track of once the first `i` of
     * the people `ps` have taken their turns, `left` saying who of them
     * departed, with `frame` the objects the turns may change: the lists
     * after the departures and the babies so far, and where everyone stands.
     */
    ghost predicate Kept(ps: seq<Person>, frame: set<Person?>, pl0: seq<Person>, ll0: seq<Person>, i: int, left: seq<bool>,
                         babies: seq<Person>, flags: seq<bool>)
      reads this, set q | q in ps, set q | q in ps :: q.pos, set b | b in babies, set b | b in babies :: b.pos
    {
      && 0 <= i <= |ps| && |left| == i && |flags| == |babies|
      && personList == RemoveAll(pl0, Select(ps[..i], left, true))
      && latinoList == RemoveAll(ll0, Select(ps[..i], left, true)) + Select(babies, flags, true)
      && (forall q :: q in personList ==> q in frame)
      && OnGridAll(ps) && SpousesWithin(ps, frame) && Newborns(babies)
      && (forall b :: b in babies ==> b !in frame)
      && (forall b, q :: b in babies && q in ps ==> b.pos != q.pos)
    }

    /** Kept after the last turn: the lists are those of the whole run */
    lemma KeptDone(ps: seq<Person>, frame: set<Person?>, pl0: seq<Person>, ll0: seq<Person>, left: seq<bool>,
                   babies: seq<Person>, flags: seq<bool>)
      requires Kept(ps, frame, pl0, ll0, |ps|, left, babies, flags)
      ensures |left| == |ps| && |flags| == |babies|
      ensures personList == RemoveAll(pl0, Select(ps, left, true))
      ensures latinoList == RemoveAll(ll0, Select(ps, left, true)) + Select(babies, flags, true)
      ensures OnGridAll(ps) && Newborns(babies)
    {
      assert ps[..|ps|] == ps;
    }

    /** turn i, in the terms of Kept */
    method KeptStep(d: TurnDraw, latinoMajority: bool, ps: seq<Person>, ghost frame: set<Person?>, ghost places: set<Position>,
                    ghost pl0: seq<Person>, ghost ll0: seq<Person>, i: int, ghost left: seq<bool>,
                    ghost babies: seq<Person>, ghost flags: seq<bool>)
      returns (leaves: bool, baby: Person?, joins: bool)
      requires world.Valid() && Kept(ps, frame, pl0, ll0, i, left, babies, flags) && i < |ps| && ps[i] in frame
      requires ps[i].pos in places
      modifies this`personList, this`latinoList, this`nextHandle, world.grid, frame, places
      ensures baby != null ==> fresh(baby)
      ensures Kept(ps, frame, pl0, ll0, i + 1, left + [leaves], Grow(babies, baby), GrowFlags(flags, baby, joins))
    {
      leaves, baby, joins := Step(ps[i], d, latinoMajority, ps, frame, babies);
      TurnBook(ps, i, left, leaves, pl0, ll0, old(personList), old(latinoList), personList, latinoList, babies, flags, baby, joins);
    }

    /**
     * The loop of ageAndReproduce: every visible person takes a turn, in
     * list order, turn i using ds[i]. left[i] says whether person i died or
     * retired; the babies come out in order of birth, each flagged when it
     * also joined latinoList.
     */
    method TakeTurns(ps: seq<Person>, ds: seq<TurnDraw>, latinoMajority: bool, ghost frame: set<Person?>, ghost places: set<Position>)
      returns (left: seq<bool>, babies: seq<Person>, latinoFlags: seq<bool>)
      requires world.Valid() && OnGridAll(ps) && SpousesWithin(ps, frame)
      requires forall q :: q in ps ==> q in frame && q.pos in places
      requires forall q :: q in personList ==> q in frame
      modifies this`personList, this`latinoList, this`nextHandle, world.grid, frame, places
      ensures |left| == |ps| && |latinoFlags| == |babies|
      ensures personList == RemoveAll(old(personList), Select(ps, left, true))
      ensures latinoList == RemoveAll(old(latinoList), Select(ps, left, true)) + Select(babies, latinoFlags, true)
      ensures OnGridAll(ps)
      ensures forall b :: b in babies ==> fresh(b)
      ensures Newborns(babies)
    {
      ghost var pl0, ll0 := personList, latinoList;
      left, babies, latinoFlags := [], [], [];
      var i := 0;
      while i < |ps|
        invariant Kept(ps, frame, pl0, ll0, i, left, babies, latinoFlags)
        invariant forall b :: b in babies ==> fresh(b)
      {
        var leaves, baby, joins := KeptStep(TurnAt(ds, i), latinoMajority, ps, frame, places, pl0, ll0, i, left, babies, latinoFlags);
        left := left + [leaves];
        babies, latinoFlags := Grow(babies, baby), GrowFlags(latinoFlags, baby, joins);
        i := i + 1;
      }
      KeptDone(ps, frame, pl0, ll0, left, babies, latinoFlags);
    }

    /**
     * The turns of ageAndReproduce, after which the babies join visibleList
     * and personList behind everyone who stayed.
     */
    method TurnsAndBirths(ds: seq<TurnDraw>, latinoMajority: bool) returns (left: seq<bool>, babies: seq<Person>, latinoFlags: seq<bool>)
      requires Placed()
      modifies this`visibleList, this`personList, this`latinoList, this`nextHandle, world.grid
      modifies set q | q in visibleList, set q | q in visibleList :: q.pos, set q | q in personList
      modifies set q | q in visibleList && q.spouse != null :: q.spouse
      ensures |left| == |old(visibleList)| && |latinoFlags| == |babies|
      ensures visibleList == Select(old(visibleList), left, false) + babies
      ensures personList == RemoveAll(old(personList), Select(old(visibleList), left, true)) + babies
      ensures latinoList == RemoveAll(old(latinoList), Select(old(visibleList), left, true)) + Select(babies, latinoFlags, true)
      ensures forall b :: b in babies ==> fresh(b)
      ensures Newborns(babies) && Placed()
    {
      var ps := visibleList;
      left, babies, latinoFlags := Turns(ds, latinoMajority);
      Admit(ps, left, babies);
    }

    /** the turns of everyone in visibleList, over the frame of the people and their positions and spouses */
    method Turns(ds: seq<TurnDraw>, latinoMajority: bool) returns (left: seq<bool>, babies: seq<Person>, latinoFlags: seq<bool>)
      requires Placed()
      modifies this`personList, this`latinoList, this`nextHandle, world.grid
      modifies TurnFrame(visibleList, personList), set q | q in visibleList :: q.pos
      ensures |left| == |visibleList| && |latinoFlags| == |babies|
      ensures personList == RemoveAll(old(personList), Select(visibleList, left, true))
      ensures latinoList == RemoveAll(old(latinoList), Select(visibleList, left, true)) + Select(babies, latinoFlags, true)
      ensures world.Valid() && OnGridAll(visibleList)
      ensures forall b :: b in babies ==> fresh(b)
      ensures Newborns(babies)
    {
      var ps := visibleList;
      ghost var frame := TurnFrame(ps, personList);
      TurnFrameCovers(ps, personList);
      left, babies, latinoFlags := TakeTurns(ps, ds, latinoMajority, frame, set q | q in ps :: q.pos);
    }

    /** the people who stayed and the newborns make up the new visibleList; the newborns join personList */
    method Admit(ps: seq<Person>, left: seq<bool>, babies: seq<Person>)
      requires world.Valid() && |left| == |ps| && OnGridAll(ps) && Newborns(babies)
      modifies this`visibleList, this`personList
      ensures visibleList == Select(ps, left, false) + babies
      ensures personList == old(personList) + babies
      ensures Placed() && Newborns(babies)
    {
      OnGridKeptAndBorn(ps, left, babies);
      visibleList := Select(ps, left, false) + babies;
      personList := personList + babies;
    }

    /**
     * ageAndReproduce: the turns and the births; then each teacher or
     * babysitter who retired is replaced.
     */
    method AgeAndReproduce(ds: seq<TurnDraw>, teacherDraws: seq<HireDraw>, sitterDraws: seq<seq<nat>>, latinoMajority: bool)
      returns (left: seq<bool>, babies: seq<Person>, latinoFlags: seq<bool>, teachers: seq<Person>, sitters: seq<Person>)
      requires Placed()
      modifies this`visibleList, this`personList, this`latinoList, this`nextHandle, world.grid
      modifies set q | q in visibleList, set q | q in visibleList :: q.pos, set q | q in personList
      modifies set q | q in visibleList && q.spouse != null :: q.spouse
      ensures |left| == |old(visibleList)| && |latinoFlags| == |babies|
      ensures visibleList == Select(old(visibleList), left, false) + babies + teachers + sitters
      ensures personList == RemoveAll(old(personList), Select(old(visibleList), left, true)) + babies
      ensures latinoList == RemoveAll(old(latinoList), Select(old(visibleList), left, true)) + Select(babies, latinoFlags, true)
      ensures forall b :: b in babies ==> fresh(b) && b.role == Plain && b.age == 0 && b.spouse == null && InRegion(Home, b.pos.x, b.pos.y)
      ensures |teachers| <= RoleCount(Select(old(visibleList), left, true), Teacher)
      ensures |sitters| <= RoleCount(Select(old(visibleList), left, true), BabySitter)
      ensures personList != [] ==> |sitters| == RoleCount(Select(old(visibleList), left, true), BabySitter)
      ensures forall t :: t in teachers ==> fresh(t) && t.role == Teacher && t.race != Latino
      ensures forall s :: s in sitters ==> fresh(s) && s.role == BabySitter
      ensures Placed()
    {
      var ps := visibleList;
      left, babies, latinoFlags := TurnsAndBirths(ds, latinoMajority);
      var gone := Select(ps, left, true);
      ghost var mid := visibleList;
      label AfterBirths:
      teachers := HireTeachers(RoleCount(gone, Teacher), teacherDraws);
      sitters := HireBabySitters(RoleCount(gone, BabySitter), sitterDraws);
      assert visibleList == mid + teachers + sitters;
      assert Placed() by {
        forall q | q in visibleList
          ensures InGrid(q.pos.x, q.pos.y)
        {
          if q in mid {
            assert old@AfterBirths(InGrid(q.pos.x, q.pos.y));
          }
        }
      }
    }

    // -------------------------------------------------------------------------
    // Activation order
    // -------------------------------------------------------------------------

    /** every person of `ps` paired with its status, in order */
    static method TagByStatus(ps: seq<Person>) returns (tagged: seq<(int, Person)>)
      ensures Map(Holder, tagged) == ps
      ensures forall e :: e in tagged ==> e.0 == e.1.status
    {
      tagged := [];
      var i := 0;
      while i < |ps|
        invariant 0 <= i <= |ps|
        invariant Map(Holder, tagged) == ps[..i]
        invariant forall e :: e in tagged ==> e.0 == e.1.status
      {
        MapSnoc(Holder, tagged, (ps[i].status, ps[i]));
        assert ps[..i + 1] == ps[..i] + [ps[i]];
        tagged := tagged + [(ps[i].status, ps[i])];
        i := i + 1;
      }
      assert ps[..i] == ps;
    }

    /**
     * The status activation order: visibleList sorted (Collections.sort,
     * a stable sort) with PersonStatusComparator, lowest status first.
     */
    method OrderByStatus()
      modifies this`visibleList
      ensures multiset(visibleList) == multiset(old(visibleList))
      ensures forall i, j :: 0 <= i < j < |visibleList| ==> visibleList[i].status <= visibleList[j].status
    {
      visibleList := StatusOrder(visibleList);
    }

    /** `ps` sorted by status, lowest first, through the status-tagged list */
    static method StatusOrder(ps: seq<Person>) returns (ordered: seq<Person>)
      ensures multiset(ordered) == multiset(ps)
      ensures forall i, j :: 0 <= i < j < |ordered| ==> ordered[i].status <= ordered[j].status
    {
      var tagged := TagByStatus(ps);
      TaggedSort(tagged);
      var sorted: seq<(int, Person)> := SortBy(tagged, StatusKey);
      ordered := Map(Holder, sorted);
      forall i, j | 0 <= i < j < |ordered|
        ensures ordered[i].status <= ordered[j].status
      {
        assert sorted[i] in tagged && sorted[j] in tagged;
      }
    }
  }
}
