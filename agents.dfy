/*
 * Person and its three role variants. Teacher, BabySitter and Attractor are
 * subclasses in the source that override a handful of methods; here they
 * are a `role` tag on one class, and every overridden method dispatches on
 * it. A person owns a first lexicon, possibly a second one and a memory
 * buffer, and moves on the world's grid under the grid identity `handle`.
 * Random draws and the outcomes of floating-point probability tests are
 * parameters.
 */
module Agents {
  import opened Items
  import opened Sorting
  import opened Lexicons
  import opened TempLexicons
  import opened Space
  import opened Genetics

  // Model's demographic codes
  const White: int := 0
  const Black: int := 1
  const Latino: int := 2
  const Child: int := 0
  const Student: int := 1
  const Adult: int := 2
  const Female: int := 0
  const Male: int := 1
  const LowerClass: int := 0
  const MiddleClass: int := 1
  const UpperClass: int := 2

  /** Model.stepsPerYear */
  const StepsPerYear: int := 100
  /** Model.wordThreshold: hearings after which an item always enters the second lexicon */
  const Threshold: int := 10
  /** the fixed status of teachers, babysitters and attractors */
  const RoleStatus: int := 40
  /** Model.adultProbGA, adultProbL1 and adultProbL2 */
  const AdultProbGA: real := 0.15
  const AdultProbL1: real := 0.15
  const AdultProbL2: real := 0.2

  /** which class the object is: Person itself or one of its subclasses */
  datatype Role = Plain | Teacher | BabySitter | Attractor

  // ---------------------------------------------------------------------------
  // updateStats and calcStatus
  // ---------------------------------------------------------------------------

  /** the age classes: children are under 6, students under 18 */
  function AgeClassOf(age: int): (c: int)
    ensures Child <= c <= Adult
  {
    if age < 6 then Child else if age < 18 then Student else Adult
  }

  /** the one region each age class may occupy */
  function RegionsFor(ageClass: int): seq<Region> {
    if ageClass == Child then [Home] else if ageClass == Student then [School] else [Work]
  }

  /** how far a person looks for someone to listen to */
  function SightRadiusOf(age: int): int {
    if age < 10 then 3 else if age < 18 then 6 else if age < 50 then 10 else 3
  }

  /** calcStatus' race term; a race outside the three codes adds nothing */
  function RaceTerm(race: int, gender: int, generation: int, latinoMajority: bool): int {
    if race == White then 6 + 2 * gender
    else if race == Black then 4 + 2 * (1 - gender)
    else if race == Latino then (1 - gender) + (if latinoMajority then 3 else 0) + 2 * generation
    else 0
  }

  /**
   * calcStatus: for codes in range, at least ten points per age class, and
   * above that at most ten more, except that each new latino generation adds
   * two points without limit.
   */
  function StatusOf(ageClass: int, race: int, gender: int, socialClass: int, generation: int, latinoMajority: bool): (s: int)
    ensures ValidCodes(ageClass, race, gender, socialClass) && generation >= 0 ==>
              && 10 * ageClass <= s
              && (race != Latino ==> s <= 10 * ageClass + 10)
              && (race == Latino ==> s <= 10 * ageClass + 6 + 2 * generation)
  {
    10 * ageClass + RaceTerm(race, gender, generation, latinoMajority) + socialClass
  }

  /** demographic codes in range */
  predicate ValidCodes(ageClass: int, race: int, gender: int, socialClass: int) {
    Child <= ageClass <= Adult && White <= race <= Latino && Female <= gender <= Male && LowerClass <= socialClass <= UpperClass
  }

  /**
   * updateStats in one statement: the age class follows the age, each class
   * has exactly its own region, which lies on the grid, and the sight radius
   * grows to 10 and shrinks back to 3 at 50.
   */
  lemma AgeClassRules(age: int)
    ensures AgeClassOf(age) == Child <==> age < 6
    ensures AgeClassOf(age) == Student <==> 6 <= age < 18
    ensures AgeClassOf(age) == Adult <==> 18 <= age
    ensures |RegionsFor(AgeClassOf(age))| == 1 && OnGrid(RegionsFor(AgeClassOf(age))[0])
    ensures SightRadiusOf(age) == 10 <==> 18 <= age < 50
    ensures SightRadiusOf(age) == 3 <==> age < 10 || age >= 50
  {
    ModelRegionsOnGrid();
  }

  /**
   * The fixed status 40 of the role variants is above every ordinary
   * person's until a latino family reaches its seventh generation.
   */
  lemma RolesOutrankOrdinaryPeople(ageClass: int, race: int, gender: int, socialClass: int, generation: int, latinoMajority: bool)
    requires ValidCodes(ageClass, race, gender, socialClass) && 0 <= generation <= 6
    ensures StatusOf(ageClass, race, gender, socialClass, generation, latinoMajority) < RoleStatus
    ensures StatusOf(Adult, Latino, Female, UpperClass, 7, true) == RoleStatus
  {
  }

  // ---------------------------------------------------------------------------
  // The initial lexicons
  // ---------------------------------------------------------------------------

  /**
   * Item i of a native lexicon: Spanish with no inflection for a latino,
   * otherwise English, AAE for a black speaker and Standard for the rest
   * (createEnglishLexicon's draw against a probability fixed at 1 always
   * picks AAE).
   */
  function NativeItem(race: int, i: int): Item {
    if race == Latino then [i, 1, 0, 0] else if race == Black then [i, 0, 0, 1] else [i, 0, 1, 0]
  }

  /** createEnglishLexicon / createSpanishLexicon: one item per index, in index order */
  function NativeItems(race: int): (s: seq<Item>)
    ensures |s| == MaxItems
  {
    seq(MaxItems, i requires 0 <= i < MaxItems => NativeItem(race, i))
  }

  /**
   * Item i of a native lexicon has index i and the speaker's language;
   * black speakers get AAE throughout, white speakers Standard English.
   */
  lemma NativeItemsShape(race: int)
    ensures forall i :: 0 <= i < MaxItems ==>
              NativeItems(race)[i][0] == i && NativeItems(race)[i][1] == (if race == Latino then 1 else 0)
    ensures race == Black ==> forall i :: 0 <= i < MaxItems ==> Matches(AAE, NativeItems(race)[i])
    ensures race != Black && race != Latino ==> forall i :: 0 <= i < MaxItems ==> Matches(StandardEnglish, NativeItems(race)[i])
  {
  }

  /** A native lexicon is a well-formed Lexicon, and a well-formed BiLexicon too. */
  lemma NativeItemsValid(race: int)
    ensures Lexicons.Inv(Mono, NativeItems(race)) && Lexicons.Inv(Bi, NativeItems(race))
  {
    NativeItemsShape(race);
    CountingLexiconInv(NativeItems(race));
    AdoptKeepsInv(NativeItems(race));
  }

  // ---------------------------------------------------------------------------
  // The birth constructor's race rule
  // ---------------------------------------------------------------------------

  /**
   * the child's race: white exactly when both parents are; otherwise a
   * non-white parent's race, the other parent's when one of them is white
   */
  function BirthRace(r1: int, r2: int, firstCoin: bool): (r: int)
    ensures r == White <==> r1 == White && r2 == White
    ensures r == r1 || r == r2
    ensures r1 == White && r2 != White ==> r == r2
    ensures r1 != White && r2 == White ==> r == r1
  {
    if r1 == White && r2 == White then White
    else if r1 == White then r2
    else if r2 == White then r1
    else if firstCoin then r1 else r2
  }

  // ---------------------------------------------------------------------------
  // hearItem's routing
  // ---------------------------------------------------------------------------

  /** where a heard item goes */
  datatype Route = Ignored | ToGA | ToFirst | ToSecond | ToBuffer

  /** the students' first-lexicon share, as written */
  function StudentL1(age: int): real {
    (0.5 / 0.85) * (-(0.65 / 12.0) * (age as real) + 0.8 + 0.65 / 2.0)
  }

  /** the students' second-lexicon share, as written: (1 / 60) is integer division */
  function StudentL2(age: int): real {
    (0.5 / 0.85) * (((1 / 60) as real) * (age as real) - 0.1)
  }

  /**
   * hearItem: the route for a heard item whose language bit is `lang`,
   * given the listener's age class, race and age, whether the first lexicon
   * is a BiLexicon, and the uniform draw `draw`. An item is ignored exactly
   * when a latino child hears English or the age class is out of range.
   */
  function RouteOf(ageClass: int, race: int, age: int, bi: bool, lang: int, draw: real): (r: Route)
    ensures r == Ignored <==> (ageClass == Child && lang == 0 && race == Latino) || ageClass < Child || ageClass > Adult
  {
    if ageClass == Child then
      if lang == 0 && race == Latino then Ignored
      else if draw < 0.8 then ToFirst
      else if draw < 0.95 then ToGA
      else ToBuffer
    else if ageClass == Student then
      if draw < 0.5 then ToGA
      else if draw < StudentL1(age) + 0.5 then ToFirst
      else if draw < 0.5 + StudentL1(age) + StudentL2(age) && !bi then ToSecond
      else ToBuffer
    else if ageClass == Adult then
      if draw < AdultProbGA then ToGA
      else if draw < AdultProbGA + AdultProbL1 then ToFirst
      else if draw < AdultProbGA + AdultProbL1 + AdultProbL2 && !bi then ToSecond
      else ToBuffer
    else Ignored
  }

  /** The second-lexicon share of a student is negative at every age. */
  lemma StudentL2Negative(age: int)
    ensures StudentL2(age) < 0.0
  {
    assert (1 / 60) as real == 0.0;
  }

  /**
   * Only adults ever send an item to the second lexicon, and only when the
   * first lexicon is not a BiLexicon.
   */
  lemma RoutingRules(ageClass: int, race: int, age: int, bi: bool, lang: int, draw: real)
    ensures RouteOf(ageClass, race, age, bi, lang, draw) == ToSecond ==> ageClass == Adult && !bi
  {
    if ageClass == Student {
      StudentL2Negative(age);
    }
  }

  /** The adult shares: GA below 0.15, first lexicon below 0.30, second below 0.5 unless bilingual. */
  lemma AdultRouting(race: int, age: int, bi: bool, lang: int, draw: real)
    ensures 0.0 <= draw < 0.15 ==> RouteOf(Adult, race, age, bi, lang, draw) == ToGA
    ensures 0.15 <= draw < 0.3 ==> RouteOf(Adult, race, age, bi, lang, draw) == ToFirst
    ensures 0.3 <= draw < 0.5 ==> RouteOf(Adult, race, age, bi, lang, draw) == (if bi then ToBuffer else ToSecond)
    ensures 0.5 <= draw ==> RouteOf(Adult, race, age, bi, lang, draw) == ToBuffer
  {
  }

  /** addToSecondLexicon's acceptance: n / threshold against a uniform draw in [0, 1) */
  predicate Fires(timesHeard: int, coin: bool) {
    timesHeard >= Threshold || (timesHeard > 0 && coin)
  }

  /** the draws one heard item consumes */
  datatype HearDraw = HearDraw(route: real, secondCoin: bool, pick: nat, fromChanged: seq<bool>, flips: seq<bool>, accept: bool)

  /** the i-th draw; missing or short draws read as zeros */
  function DrawAt(ds: seq<HearDraw>, i: nat): (d: HearDraw)
    ensures |d.fromChanged| >= NumElements - 2 && |d.flips| >= NumElements - 2
  {
    if i < |ds| && |ds[i].fromChanged| >= NumElements - 2 && |ds[i].flips| >= NumElements - 2 then ds[i]
    else HearDraw(0.0, false, 0, [false, false], [false, false], false)
  }

  /** every field of a person, to say which ones an operation changes */
  datatype Traits = Traits(
    age: int, ageClass: int, numTicksAlive: int, gender: int, generation: int, race: int,
    socialClass: int, status: int, matingID: int, sightRadius: int, regions: seq<Region>,
    spouse: Person?, parents: seq<Person>,
    firstLang: Lexicon, secondLang: Lexicon?, tempMemBuffer: TempLexicon?)

  class Person {
    /** the object's identity, as the grid records its occupants */
    const handle: AgentId
    const role: Role
    /** the person's recorded x and y */
    const pos: Position
    var age: int
    var ageClass: int
    var numTicksAlive: int
    var gender: int
    var generation: int
    var race: int
    var socialClass: int
    var status: int
    var matingID: int
    var sightRadius: int
    var regions: seq<Region>
    var spouse: Person?
    var parents: seq<Person>
    var firstLang: Lexicon
    var secondLang: Lexicon?
    var tempMemBuffer: TempLexicon?

    function Snapshot(): Traits
      reads this
    {
      Traits(age, ageClass, numTicksAlive, gender, generation, race, socialClass, status, matingID,
             sightRadius, regions, spouse, parents, firstLang, secondLang, tempMemBuffer)
    }

    /** the item lists this person's lexicons write to */
    function OwnLists(): set<object>
      reads this
    {
      {firstLang.list} + (if secondLang != null then {secondLang.list} else {})
    }

    /** the two lexicons do not share a list */
    predicate Separate()
      reads this
    {
      secondLang != null ==> secondLang.list != firstLang.list
    }

    // -------------------------------------------------------------------------
    // Constructors
    // -------------------------------------------------------------------------

    /**
     * The birth constructor. updateStats runs before generation, race and
     * class are set, so the status is that of a white lower-class child of
     * generation 0, and the mating ID is 100 * generation alone. The
     * recorded cell (0, 0) lies in the home region, so nobody is moved.
     */
    constructor Born(handle: AgentId, p1: Person, p2: Person, genderDraw: nat, raceCoin: bool, classCoin: bool,
                     latinoMajority: bool)
      ensures this.handle == handle && role == Plain && fresh(pos) && pos.x == 0 && pos.y == 0
      ensures age == 0 && numTicksAlive == 0 && gender == genderDraw % 2
      ensures ageClass == Child && regions == [Home] && sightRadius == 3 && InAnyRegion(regions, pos.x, pos.y)
      ensures status == StatusOf(Child, White, gender, LowerClass, 0, latinoMajority)
      ensures generation == p1.generation + 1 && matingID == 100 * generation
      ensures race == BirthRace(p1.race, p2.race, raceCoin)
      ensures socialClass == (if classCoin then p1.socialClass else p2.socialClass)
      ensures parents == [p1, p2] && spouse == null
      ensures fresh(firstLang) && fresh(firstLang.list) && firstLang.kind == Mono && firstLang.list.items == []
      ensures secondLang == null && tempMemBuffer == null
    {
      this.handle := handle;
      role := Plain;
      pos := new Position(0, 0);
      var g := genderDraw % 2;
      var c := AgeClassOf(0);
      gender := g;
      age := 0;
      numTicksAlive := 0;
      ageClass := c;
      status := StatusOf(c, White, g, LowerClass, 0, latinoMajority);
      regions := RegionsFor(c);
      sightRadius := SightRadiusOf(0);
      generation := p1.generation + 1;
      matingID := 100 * (p1.generation + 1);
      race := BirthRace(p1.race, p2.race, raceCoin);
      socialClass := if classCoin then p1.socialClass else p2.socialClass;
      parents := [p1, p2];
      spouse := null;
      firstLang := new Lexicon.Empty(Mono);
      secondLang := null;
      tempMemBuffer := null;
      new;
      assert InRegion(regions[0], pos.x, pos.y);
    }

    /**
     * The race constructor Person(r): an adult aged 18 to 74 with the
     * native lexicon of race r. updateStats runs before the class is set,
     * so the status counts the lower class; it places the adult in the
     * work region, since the recorded cell (0, 0) lies outside it.
     */
    constructor Settler(handle: AgentId, r: int, ageDraw: nat, genderDraw: nat, socialClass: int,
                        world: World, draws: seq<(nat, nat, nat)>, latinoMajority: bool)
      requires White <= r <= Latino
      requires world.Valid()
      modifies world.grid
      ensures this.handle == handle && role == Plain && fresh(pos)
      ensures var age0 := 18 + ageDraw % 57;
        Snapshot() == Traits(age0, Adult, 0, genderDraw % 2, 0, r, socialClass,
                             StatusOf(Adult, r, genderDraw % 2, LowerClass, 0, latinoMajority),
                             10 * r + socialClass, SightRadiusOf(age0), [Work], null, [], firstLang, null, null)
      ensures fresh(firstLang) && fresh(firstLang.list) && firstLang.kind == Mono && firstLang.list.items == NativeItems(r)
      ensures (InRegion(Work, pos.x, pos.y) && world.Relocated(handle, 0, 0, pos.x, pos.y))
              || (pos.x == 0 && pos.y == 0 && unchanged(world.grid))
    {
      var a := 18 + ageDraw % 57;
      var g := genderDraw % 2;
      this.handle, role := handle, Plain;
      pos := new Position(0, 0);
      age, gender, race := a, g, r;
      firstLang := new Lexicon.FromItems(Mono, NativeItems(r));
      // updateStats' fields, computed while the class is still 0
      ageClass, regions, sightRadius := AgeClassOf(a), RegionsFor(AgeClassOf(a)), SightRadiusOf(a);
      status := StatusOf(AgeClassOf(a), r, g, LowerClass, 0, latinoMajority);
      // calcInitialClass and calcMatingID
      this.socialClass, matingID := socialClass, 10 * r + socialClass;
      numTicksAlive, generation := 0, 0;
      spouse, parents, secondLang, tempMemBuffer := null, [], null, null;
      new;
      // updateStats' move: the recorded cell (0, 0) lies outside the work region
      ModelRegionsOnGrid();
      var placed := world.MovePersonToAnyRegion(handle, pos, regions, draws);
    }

    /**
     * Attractor(r): the race constructor with Attractor's updateStats,
     * which ends by forcing the status to 40; the age is then redrawn in
     * [12, 25], leaving the adult age class, region and sight radius that
     * the first age gave.
     */
    constructor NewAttractor(handle: AgentId, r: int, ageDraw: nat, genderDraw: nat, socialClass: int,
                             attractorAge: nat, world: World, draws: seq<(nat, nat, nat)>, latinoMajority: bool)
      requires White <= r <= Latino
      requires world.Valid()
      modifies world.grid
      ensures this.handle == handle && role == Attractor && fresh(pos)
      ensures Snapshot() == Traits(12 + attractorAge % 14, Adult, 0, genderDraw % 2, 0, r, socialClass, RoleStatus,
                                   10 * r + socialClass, SightRadiusOf(18 + ageDraw % 57), [Work], null, [], firstLang, null, null)
      ensures fresh(firstLang) && fresh(firstLang.list) && firstLang.kind == Mono && firstLang.list.items == NativeItems(r)
      ensures (InRegion(Work, pos.x, pos.y) && world.Relocated(handle, 0, 0, pos.x, pos.y))
              || (pos.x == 0 && pos.y == 0 && unchanged(world.grid))
    {
      var a := 18 + ageDraw % 57;
      this.handle, role := handle, Attractor;
      pos := new Position(0, 0);
      gender, race := genderDraw % 2, r;
      firstLang := new Lexicon.FromItems(Mono, NativeItems(r));
      // Attractor's updateStats: Person's fields for the first age, then status 40
      ageClass, regions, sightRadius := AgeClassOf(a), RegionsFor(AgeClassOf(a)), SightRadiusOf(a);
      status := RoleStatus;
      // calcInitialClass, calcMatingID, then Attractor's own age draw
      this.socialClass, matingID := socialClass, 10 * r + socialClass;
      age := 12 + attractorAge % 14;
      numTicksAlive, generation := 0, 0;
      spouse, parents, secondLang, tempMemBuffer := null, [], null, null;
      new;
      // updateStats' move: the recorded cell (0, 0) lies outside the work region
      ModelRegionsOnGrid();
      var placed := world.MovePersonToAnyRegion(handle, pos, regions, draws);
    }

    /**
     * Teacher(): white or black, female or male, upper or middle class,
     * aged 22 to 63, an adult with status 40, an English lexicon and the
     * school and work regions. updateStats is not run, so the sight radius
     * keeps its default 0.
     */
    constructor NewTeacher(handle: AgentId, whiteCoin: bool, femaleCoin: bool, upperCoin: bool, ageDraw: nat)
      ensures this.handle == handle && role == Teacher && fresh(pos)
      ensures race == (if whiteCoin then White else Black) && gender == (if femaleCoin then Female else Male)
      ensures socialClass == (if upperCoin then UpperClass else MiddleClass)
      ensures 22 <= age <= 63 && age == 22 + ageDraw % 42 && ageClass == Adult && status == RoleStatus
      ensures regions == [School, Work] && sightRadius == 0 && generation == 0 && matingID == 0
      ensures parents == [] && spouse == null && secondLang == null && tempMemBuffer == null
      ensures fresh(firstLang) && fresh(firstLang.list) && firstLang.kind == Mono && firstLang.list.items == NativeItems(race)
    {
      this.handle := handle;
      role := Teacher;
      pos := new Position(0, 0);
      race := if whiteCoin then White else Black;
      gender := if femaleCoin then Female else Male;
      socialClass := if upperCoin then UpperClass else MiddleClass;
      age := 22 + ageDraw % 42;
      ageClass := Adult;
      status := RoleStatus;
      firstLang := new Lexicon.FromItems(Mono, NativeItems(if whiteCoin then White else Black));
      regions := [School, Work];
      numTicksAlive, generation, matingID, sightRadius := 0, 0, 0, 0;
      spouse, parents, secondLang, tempMemBuffer := null, [], null, null;
    }

    /**
     * Teacher(Person): race, gender, class and both lexicon objects (shared,
     * not copied) from `p`; age 22, status 40, the school and work regions.
     * The age class keeps its default 0, which is CHILD.
     */
    constructor CloneTeacher(handle: AgentId, p: Person)
      ensures pos.x == 0 && pos.y == 0
      ensures this.handle == handle && role == Teacher && fresh(pos)
      ensures race == p.race && gender == p.gender && socialClass == p.socialClass
      ensures firstLang == p.firstLang && secondLang == p.secondLang && tempMemBuffer == null
      ensures age == 22 && status == RoleStatus && regions == [School, Work] && ageClass == Child
    {
      this.handle := handle;
      role := Teacher;
      pos := new Position(0, 0);
      race, gender, socialClass := p.race, p.gender, p.socialClass;
      firstLang, secondLang := p.firstLang, p.secondLang;
      status := RoleStatus;
      age := 22;
      regions := [School, Work];
      ageClass, numTicksAlive, generation, matingID, sightRadius := 0, 0, 0, 0, 0;
      spouse, parents, tempMemBuffer := null, [], null;
    }

    /**
     * BabySitter(): latino below 0.45 of the race draw, black below 0.9,
     * white otherwise; female; middle or lower class; aged 22 to 63; an
     * adult with status 40; a Spanish lexicon exactly when latino; the
     * home region.
     */
    constructor NewBabySitter(handle: AgentId, raceDraw: real, middleCoin: bool, ageDraw: nat)
      ensures this.handle == handle && role == BabySitter && fresh(pos)
      ensures race == (if raceDraw < 0.45 then Latino else if raceDraw < 0.9 then Black else White)
      ensures gender == Female && socialClass == (if middleCoin then MiddleClass else LowerClass)
      ensures 22 <= age <= 63 && age == 22 + ageDraw % 42 && ageClass == Adult && status == RoleStatus
      ensures regions == [Home] && generation == 0
      ensures parents == [] && spouse == null && secondLang == null && tempMemBuffer == null
      ensures fresh(firstLang) && fresh(firstLang.list) && firstLang.kind == Mono && firstLang.list.items == NativeItems(race)
      ensures firstLang.list.items[0][1] == 1 <==> race == Latino
    {
      this.handle := handle;
      role := BabySitter;
      pos := new Position(0, 0);
      var r := if raceDraw < 0.45 then Latino else if raceDraw < 0.9 then Black else White;
      NativeItemsShape(r);
      race := r;
      gender := Female;
      socialClass := if middleCoin then MiddleClass else LowerClass;
      age := 22 + ageDraw % 42;
      ageClass := Adult;
      status := RoleStatus;
      firstLang := new Lexicon.FromItems(Mono, NativeItems(r));
      regions := [Home];
      numTicksAlive, generation, matingID, sightRadius := 0, 0, 0, 0;
      spouse, parents, secondLang, tempMemBuffer := null, [], null, null;
    }

    /**
     * BabySitter(Person): race, gender, class and both lexicon objects
     * (shared) from `p`; age 22, status 40, the home region; the age class
     * keeps its default 0.
     */
    constructor CloneBabySitter(handle: AgentId, p: Person)
      ensures pos.x == 0 && pos.y == 0
      ensures this.handle == handle && role == BabySitter && fresh(pos)
      ensures race == p.race && gender == p.gender && socialClass == p.socialClass
      ensures firstLang == p.firstLang && secondLang == p.secondLang && tempMemBuffer == null
      ensures age == 22 && status == RoleStatus && regions == [Home] && ageClass == Child
    {
      this.handle := handle;
      role := BabySitter;
      pos := new Position(0, 0);
      race, gender, socialClass := p.race, p.gender, p.socialClass;
      firstLang, secondLang := p.firstLang, p.secondLang;
      age := 22;
      status := RoleStatus;
      regions := [Home];
      ageClass, numTicksAlive, generation, matingID, sightRadius := 0, 0, 0, 0, 0;
      spouse, parents, tempMemBuffer := null, [], null;
    }

    // -------------------------------------------------------------------------
    // Lifecycle gates
    // -------------------------------------------------------------------------

    /** isFertile: only ordinary people, aged 18 to 59 */
    predicate IsFertile()
      reads this
      ensures IsFertile() ==> role == Plain && AgeClassOf(age) == Adult && !Retire()
    {
      role == Plain && age > 17 && age < 60
    }

    /** retire: teachers and babysitters older than 64 */
    predicate Retire()
      reads this
      ensures Retire() ==> role != Plain && role != Attractor && age >= 65
    {
      (role == Teacher || role == BabySitter) && age > 64
    }

    /**
     * die: only ordinary people, only on a tick that is a multiple of a
     * year, and only from 50 on. The probability ((age - 50) / 35) to a
     * positive power is 0 at 50 and at least 1 from 85 on; in between the
     * draw against it is `coin`.
     */
    predicate Die(coin: bool)
      reads this
      ensures Die(coin) ==> role == Plain && age > 50 && numTicksAlive % StepsPerYear == 0
      ensures role == Plain && age >= 85 && numTicksAlive % StepsPerYear == 0 ==> Die(coin)
    {
      if role != Plain || age < 50 || numTicksAlive % StepsPerYear != 0 then false
      else if age == 50 then false
      else if age >= 85 then true
      else coin
    }

    // -------------------------------------------------------------------------
    // Regions and ageing
    // -------------------------------------------------------------------------

    /** inRegion(): is the recorded cell in one of the person's regions? */
    method InOwnRegion() returns (inside: bool)
      ensures inside == InAnyRegion(regions, pos.x, pos.y)
    {
      var i := 0;
      while i < |regions|
        invariant 0 <= i <= |regions|
        invariant forall j :: 0 <= j < i ==> !InRegion(regions[j], pos.x, pos.y)
      {
        var r := regions[i];
        if !(pos.x < r.xMin || pos.x > r.xMax || pos.y < r.yMin || pos.y > r.yMax) {
          return true;
        }
        i := i + 1;
      }
      return false;
    }

    /**
     * Person.updateStats: the age class, status, region and sight radius the
     * age calls for and, when outside that region, a move into it. The move
     * is skipped when the region is full and fails when the draws run out.
     */
    method UpdatePersonStats(world: World, draws: seq<(nat, nat, nat)>, latinoMajority: bool)
      requires world.Valid() && InGrid(pos.x, pos.y)
      modifies this`ageClass, this`status, this`regions, this`sightRadius, world.grid, pos
      ensures InGrid(pos.x, pos.y)
      ensures ageClass == AgeClassOf(age) && regions == RegionsFor(ageClass) && sightRadius == SightRadiusOf(age)
      ensures status == StatusOf(ageClass, race, gender, socialClass, generation, latinoMajority)
      ensures old(InAnyRegion(RegionsFor(AgeClassOf(age)), pos.x, pos.y)) ==> unchanged(world.grid) && unchanged(pos)
      ensures InAnyRegion(regions, pos.x, pos.y) || (unchanged(world.grid) && unchanged(pos))
      ensures InAnyRegion(regions, pos.x, pos.y) && !old(InAnyRegion(RegionsFor(AgeClassOf(age)), pos.x, pos.y)) ==>
                world.Relocated(handle, old(pos.x), old(pos.y), pos.x, pos.y)
    {
      ageClass := AgeClassOf(age);
      status := StatusOf(ageClass, race, gender, socialClass, generation, latinoMajority);
      regions := RegionsFor(ageClass);
      sightRadius := SightRadiusOf(age);
      var inside := InOwnRegion();
      if !inside {
        AgeClassRules(age);
        var placed := world.MovePersonToAnyRegion(handle, pos, regions, draws);
        if placed {
          assert InRegion(regions[0], pos.x, pos.y);
        }
      }
    }

    /**
     * updateStats, per role: teachers and babysitters only reset the status
     * to 40; an attractor runs Person's version and then forces the status
     * to 40; everyone else runs Person's version.
     */
    method UpdateStats(world: World, draws: seq<(nat, nat, nat)>, latinoMajority: bool)
      requires world.Valid() && InGrid(pos.x, pos.y)
      modifies this`ageClass, this`status, this`regions, this`sightRadius, world.grid, pos
      ensures InGrid(pos.x, pos.y)
      ensures role == Teacher || role == BabySitter ==>
                && status == RoleStatus && unchanged(world.grid) && unchanged(pos)
                && ageClass == old(ageClass) && regions == old(regions) && sightRadius == old(sightRadius)
      ensures role == Plain || role == Attractor ==>
                var c := AgeClassOf(age);
                && ageClass == c && regions == RegionsFor(c) && sightRadius == SightRadiusOf(age)
                && status == (if role == Attractor then RoleStatus else StatusOf(c, race, gender, socialClass, generation, latinoMajority))
                && (old(InAnyRegion(RegionsFor(c), pos.x, pos.y)) ==> unchanged(world.grid) && unchanged(pos))
                && (InAnyRegion(regions, pos.x, pos.y) || (unchanged(world.grid) && unchanged(pos)))
                && (InAnyRegion(regions, pos.x, pos.y) && !old(InAnyRegion(RegionsFor(c), pos.x, pos.y)) ==>
                      world.Relocated(handle, old(pos.x), old(pos.y), pos.x, pos.y))
    {
      if role == Teacher || role == BabySitter {
        status := RoleStatus;
        return;
      }
      UpdatePersonStats(world, draws, latinoMajority);
      if role == Attractor {
        status := RoleStatus;
      }
    }

    /**
     * changeToBiLexicon: with at least one English item in the first
     * lexicon before the age of 9, the first lexicon becomes a BiLexicon
     * over the same list.
     */
    method ChangeToBiLexicon()
      modifies this
      ensures var switch := CountBit(old(firstLang.list.items), 1, 0) > 0 && age < 9;
        && (switch ==> fresh(firstLang) && firstLang.kind == Bi && firstLang.list == old(firstLang.list))
        && (!switch ==> firstLang == old(firstLang))
      ensures Snapshot() == old(Snapshot()).(firstLang := firstLang)
    {
      var english := firstLang.GetNumOfBitInColumn(1, 0);
      if english > 0 && age < 9 {
        firstLang := new Lexicon.Adopt(firstLang);
      }
    }

    /**
     * updateAge: attractors never age. Everyone else counts a tick; on every
     * hundredth the age goes up by one and updateStats runs, and then a
     * latino student born in the model may switch to a BiLexicon.
     */
    method UpdateAge(world: World, draws: seq<(nat, nat, nat)>, latinoMajority: bool)
      requires world.Valid() && InGrid(pos.x, pos.y)
      modifies this, world.grid, pos
      ensures InGrid(pos.x, pos.y)
      ensures role == Attractor ==> unchanged(this) && unchanged(world.grid) && unchanged(pos)
      ensures spouse == old(spouse)
      ensures role != Attractor ==> numTicksAlive == old(numTicksAlive) + 1
      ensures role != Attractor && numTicksAlive % StepsPerYear != 0 ==>
                Snapshot() == old(Snapshot()).(numTicksAlive := numTicksAlive) && unchanged(world.grid) && unchanged(pos)
      ensures role != Attractor && numTicksAlive % StepsPerYear == 0 ==>
                age == old(age) + 1 && gender == old(gender) && race == old(race) && generation == old(generation)
      ensures firstLang != old(firstLang) <==>
                && role != Attractor && numTicksAlive % StepsPerYear == 0
                && ageClass == Student && generation > 0 && race == Latino
                && CountBit(old(firstLang.list.items), 1, 0) > 0 && age < 9
      ensures firstLang != old(firstLang) ==> firstLang.kind == Bi && firstLang.list == old(firstLang.list)
    {
      if role == Attractor {
        return;
      }
      numTicksAlive := numTicksAlive + 1;
      if numTicksAlive % StepsPerYear == 0 {
        AgeOneYear(world, draws, latinoMajority);
      }
    }

    /** the yearly part of updateAge: a year older, updateStats, and perhaps a BiLexicon */
    method AgeOneYear(world: World, draws: seq<(nat, nat, nat)>, latinoMajority: bool)
      requires world.Valid() && InGrid(pos.x, pos.y)
      modifies this, world.grid, pos
      ensures InGrid(pos.x, pos.y)
      ensures age == old(age) + 1
      ensures && spouse == old(spouse) && numTicksAlive == old(numTicksAlive)
              && gender == old(gender) && race == old(race) && generation == old(generation)
      ensures firstLang != old(firstLang) <==>
                && ageClass == Student && generation > 0 && race == Latino
                && CountBit(old(firstLang.list.items), 1, 0) > 0 && age < 9
      ensures firstLang != old(firstLang) ==> firstLang.kind == Bi && firstLang.list == old(firstLang.list)
    {
      age := age + 1;
      UpdateStats(world, draws, latinoMajority);
      if ageClass == Student && generation > 0 && race == Latino {
        ChangeToBiLexicon();
      }
    }

    // -------------------------------------------------------------------------
    // The person's lexicons
    // -------------------------------------------------------------------------

    /** addToFirstLexicon: Lexicon.addItem (or BiLexicon.addItem) on the first lexicon */
    method AddToFirstLexicon(x: seq<int>) returns (ok: bool)
      modifies firstLang.list
      ensures ok == AddAccepts(firstLang.kind, old(firstLang.list.items), x)
      ensures firstLang.list.items == AddResult(firstLang.kind, old(firstLang.list.items), x)
    {
      if |x| != NumElements {
        return false;
      }
      ok := firstLang.AddItem(x);
    }

    /**
     * addToSecondLexicon goes ahead for a well-formed item not in the first
     * lexicon, when there is a memory buffer and the acceptance draw fires:
     * never for an item not yet heard, always for one heard Threshold times.
     */
    predicate SecondFires(x: seq<int>, coin: bool): (fires: bool)
      reads this, firstLang.list, tempMemBuffer
      ensures fires ==> |x| == NumElements && x !in firstLang.list.items && tempMemBuffer != null
      ensures fires ==> TimesHeard(tempMemBuffer.entries, x) > 0
      ensures (&& |x| == NumElements && x !in firstLang.list.items && tempMemBuffer != null
               && TimesHeard(tempMemBuffer.entries, x) >= Threshold) ==> fires
    {
      && |x| == NumElements
      && Lexicons.Position(firstLang.list.items, x) == -1
      && tempMemBuffer != null
      && Fires(TimesHeard(tempMemBuffer.entries, x), coin)
    }

    /**
     * addToSecondLexicon: when it goes ahead, a second lexicon holding just
     * the item is created, or the item is added to the existing one.
     */
    method AddToSecondLexicon(x: seq<int>, coin: bool) returns (ok: bool)
      modifies this, if secondLang != null then {secondLang.list} else {}
      ensures Snapshot() == old(Snapshot()).(secondLang := secondLang)
      ensures !old(SecondFires(x, coin)) ==>
                !ok && unchanged(this) && (secondLang != null ==> unchanged(secondLang.list))
      ensures old(SecondFires(x, coin)) && old(secondLang) == null ==>
                ok && fresh(secondLang) && fresh(secondLang.list) && secondLang.kind == Mono && secondLang.list.items == [x]
      ensures old(SecondFires(x, coin)) && old(secondLang) != null ==>
                && secondLang == old(secondLang)
                && ok == AddAccepts(secondLang.kind, old(secondLang.list.items), x)
                && secondLang.list.items == AddResult(secondLang.kind, old(secondLang.list.items), x)
    {
      if |x| != NumElements {
        return false;
      }
      var inFirst := firstLang.InLexicon(x);
      if inFirst != -1 {
        return false;
      }
      if tempMemBuffer == null {
        return false;
      }
      var n := tempMemBuffer.NumTimesHeard(x);
      if !Fires(n, coin) {
        return false;
      }
      if secondLang == null {
        secondLang := new Lexicon.Single(Mono, x);
        return true;
      }
      ok := secondLang.AddItem(x);
    }

    /**
     * addToTempMemBuffer: a malformed item is refused; a missing buffer is
     * created holding the item once; an existing buffer is left as it is.
     */
    method AddToTempMemBuffer(x: seq<int>) returns (ok: bool)
      modifies this
      ensures ok <==> |x| == NumElements
      ensures ok && old(tempMemBuffer) == null ==> fresh(tempMemBuffer) && tempMemBuffer.entries == [NewEntry(x)]
      ensures !ok || old(tempMemBuffer) != null ==> tempMemBuffer == old(tempMemBuffer)
      ensures Snapshot() == old(Snapshot()).(tempMemBuffer := tempMemBuffer)
    {
      if |x| != NumElements {
        return false;
      }
      if tempMemBuffer == null {
        tempMemBuffer := new TempLexicon.FromItem(x);
      }
      return true;
    }

    /** inFirstLang: whether the first lexicon stores an item equal to `x` */
    method InFirstLang(x: seq<int>) returns (found: bool)
      ensures found <==> x in firstLang.list.items
    {
      if |x| == 0 {
        return false;
      }
      var pos := firstLang.InLexicon(x);
      found := pos >= 0;
    }

    // -------------------------------------------------------------------------
    // Hearing
    // -------------------------------------------------------------------------

    /**
     * The GA branch of hearItem: a GeneticAlg over the current lexicons and
     * buffer runs calcInsertion, and calcMicroFitness files the item in the
     * memory buffer. Only inflections change, so every lexicon keeps its
     * multiset of (index, language) pairs and its shape.
     */
    method HearByGA(x: Item, d: HearDraw)
      requires |d.fromChanged| >= NumElements - 2 && |d.flips| >= NumElements - 2
      requires Separate()
      modifies this, OwnLists()
      ensures Snapshot() == old(Snapshot()).(tempMemBuffer := tempMemBuffer)
      ensures old(tempMemBuffer) == null ==> fresh(tempMemBuffer) && tempMemBuffer.entries == [NewEntry(x)]
      ensures old(tempMemBuffer) != null ==> tempMemBuffer == old(tempMemBuffer)
      ensures multiset(Map(Pair, firstLang.list.items)) == multiset(Map(Pair, old(firstLang.list.items)))
      ensures secondLang != null ==>
                multiset(Map(Pair, secondLang.list.items)) == multiset(Map(Pair, old(secondLang.list.items)))
      ensures Lexicons.Inv(firstLang.kind, old(firstLang.list.items)) ==> Lexicons.Inv(firstLang.kind, firstLang.list.items)
    {
      ApplyGA(x, d);
      var _ := AddToTempMemBuffer(x);
    }

    /**
     * calcInsertion on a fresh GeneticAlg: at most one item of the lexicons
     * changes, and only in its inflections.
     */
    method ApplyGA(x: Item, d: HearDraw)
      requires |d.fromChanged| >= NumElements - 2 && |d.flips| >= NumElements - 2
      requires Separate()
      modifies OwnLists()
      ensures multiset(Map(Pair, firstLang.list.items)) == multiset(Map(Pair, old(firstLang.list.items)))
      ensures secondLang != null ==>
                multiset(Map(Pair, secondLang.list.items)) == multiset(Map(Pair, old(secondLang.list.items)))
      ensures Lexicons.Inv(firstLang.kind, old(firstLang.list.items)) ==> Lexicons.Inv(firstLang.kind, firstLang.list.items)
    {
      ghost var f0 := firstLang.list.items;
      ghost var s0 := if secondLang != null then secondLang.list.items else [];
      var ga := new GeneticAlg(firstLang, secondLang, tempMemBuffer, x);
      ga.CalcInsertion(d.pick, d.fromChanged, d.flips, d.accept);
      if ga.changedItem.Some? {
        CommitKeepsIndexAndLanguage(firstLang.kind, f0, ga.changedItem.value, ga.newItem.value);
        if Lexicons.Inv(firstLang.kind, f0) {
          CommitKeepsInv(firstLang.kind, f0, ga.changedItem.value, ga.newItem.value);
        }
        if secondLang != null {
          CommitKeepsIndexAndLanguage(secondLang.kind, s0, ga.changedItem.value, ga.newItem.value);
        }
      }
    }

    /**
     * hearItem: the item goes where RouteOf sends it. Only the memory buffer
     * and the second lexicon objects can be replaced, and the first
     * lexicon keeps its shape whatever happens.
     */
    method HearItem(x: Item, d: HearDraw)
      requires |d.fromChanged| >= NumElements - 2 && |d.flips| >= NumElements - 2
      requires Separate()
      modifies this, OwnLists()
      ensures Separate()
      ensures Snapshot() == old(Snapshot()).(secondLang := secondLang, tempMemBuffer := tempMemBuffer)
      ensures old(secondLang) != null ==> secondLang == old(secondLang)
      ensures old(secondLang) == null && secondLang != null ==> fresh(secondLang) && fresh(secondLang.list)
      ensures Lexicons.Inv(firstLang.kind, old(firstLang.list.items)) ==> Lexicons.Inv(firstLang.kind, firstLang.list.items)
      ensures var route := RouteOf(ageClass, race, age, firstLang.kind == Bi, x[1], d.route);
        && (route == Ignored ==> unchanged(this) && unchanged(OwnLists()))
        && (route == ToFirst ==>
              && unchanged(this)
              && firstLang.list.items == AddResult(firstLang.kind, old(firstLang.list.items), x)
              && (secondLang != null ==> unchanged(secondLang.list)))
        && (route == ToBuffer ==>
              && secondLang == old(secondLang) && unchanged(OwnLists())
              && (old(tempMemBuffer) != null ==> tempMemBuffer == old(tempMemBuffer))
              && (old(tempMemBuffer) == null ==> fresh(tempMemBuffer) && tempMemBuffer.entries == [NewEntry(x)]))
        && (route == ToSecond ==>
              && unchanged(firstLang.list) && tempMemBuffer == old(tempMemBuffer)
              && (!old(SecondFires(x, d.secondCoin)) ==> unchanged(this) && (secondLang != null ==> unchanged(secondLang.list)))
              && (old(SecondFires(x, d.secondCoin)) && old(secondLang) == null ==>
                    fresh(secondLang) && secondLang.list.items == [x])
              && (old(SecondFires(x, d.secondCoin)) && old(secondLang) != null ==>
                    secondLang.list.items == AddResult(secondLang.kind, old(secondLang.list.items), x)))
        && (route == ToGA ==>
              && secondLang == old(secondLang)
              && multiset(Map(Pair, firstLang.list.items)) == multiset(Map(Pair, old(firstLang.list.items)))
              && (secondLang != null ==>
                    multiset(Map(Pair, secondLang.list.items)) == multiset(Map(Pair, old(secondLang.list.items)))))
    {
      var route := RouteOf(ageClass, race, age, firstLang.kind == Bi, x[1], d.route);
      match route
      case Ignored =>
      case ToFirst =>
        if Lexicons.Inv(firstLang.kind, firstLang.list.items) {
          AddKeepsInv(firstLang.kind, firstLang.list.items, x);
        }
        var _ := AddToFirstLexicon(x);
      case ToGA =>
        HearByGA(x, d);
      case ToSecond =>
        var _ := AddToSecondLexicon(x, d.secondCoin);
      case ToBuffer =>
        var _ := AddToTempMemBuffer(x);
    }

    /**
     * hearItems: nothing for a missing or empty list; otherwise every item
     * is heard in turn and the status is recomputed.
     */
    method HearItems(items: Option<seq<Item>>, ds: seq<HearDraw>, latinoMajority: bool)
      requires Separate()
      modifies this, OwnLists()
      ensures Separate()
      ensures items.None? || items.value == [] ==> unchanged(this) && unchanged(OwnLists())
      ensures items.Some? && items.value != [] ==>
                Snapshot() == old(Snapshot()).(
                  status := StatusOf(ageClass, race, gender, socialClass, generation, latinoMajority),
                  secondLang := secondLang, tempMemBuffer := tempMemBuffer)
      ensures old(secondLang) != null ==> secondLang == old(secondLang)
      ensures old(secondLang) == null && secondLang != null ==> fresh(secondLang) && fresh(secondLang.list)
      ensures Lexicons.Inv(firstLang.kind, old(firstLang.list.items)) ==> Lexicons.Inv(firstLang.kind, firstLang.list.items)
    {
      if items.None? || |items.value| == 0 {
        return;
      }
      var heard := items.value;
      var i := 0;
      while i < |heard|
        invariant 0 <= i <= |heard|
        invariant Separate()
        invariant Snapshot() == old(Snapshot()).(secondLang := secondLang, tempMemBuffer := tempMemBuffer)
        invariant old(secondLang) != null ==> secondLang == old(secondLang)
        invariant old(secondLang) == null && secondLang != null ==> fresh(secondLang) && fresh(secondLang.list)
        invariant Lexicons.Inv(firstLang.kind, old(firstLang.list.items)) ==> Lexicons.Inv(firstLang.kind, firstLang.list.items)
      {
        HearItem(heard[i], DrawAt(ds, i));
        i := i + 1;
      }
      status := StatusOf(ageClass, race, gender, socialClass, generation, latinoMajority);
    }

    // -------------------------------------------------------------------------
    // step and listen
    // -------------------------------------------------------------------------

    /**
     * step's choice of speaker: nobody for a child or an empty
     * neighbourhood; otherwise the first neighbour of maximum status
     * (Collections.max), listened to only if its status is at least the
     * listener's and it is not a child.
     */
    method ChooseSpeaker(neighbours: seq<Person>) returns (best: int, listen: bool)
      ensures -1 <= best < |neighbours|
      ensures best == -1 <==> |neighbours| == 0 || ageClass == Child
      ensures best >= 0 ==> forall j :: 0 <= j < |neighbours| ==> neighbours[j].status <= neighbours[best].status
      ensures best >= 0 ==> forall j :: 0 <= j < best ==> neighbours[j].status < neighbours[best].status
      ensures listen <==> best >= 0 && neighbours[best].status >= status && neighbours[best].ageClass > Child
    {
      if |neighbours| == 0 || ageClass == Child {
        return -1, false;
      }
      best := 0;
      var i := 1;
      while i < |neighbours|
        invariant 1 <= i <= |neighbours|
        invariant 0 <= best < i
        invariant forall j :: 0 <= j < i ==> neighbours[j].status <= neighbours[best].status
        invariant forall j :: 0 <= j < best ==> neighbours[j].status < neighbours[best].status
      {
        if neighbours[i].status - neighbours[best].status > 0 {
          best := i;
        }
        i := i + 1;
      }
      listen := neighbours[best].status >= status && neighbours[best].ageClass > Child;
    }

    /**
     * listen's early returns: an empty speaker lexicon, a latino hearing a
     * non-latino babysitter, a non-white hearing a white babysitter. A
     * speaker with words who is no babysitter, or a babysitter of the
     * listener's own race, is always heard.
     */
    predicate Refuses(p: Person): (refused: bool)
      reads this, p, p.firstLang.list
      ensures p.firstLang.list.items == [] ==> refused
      ensures refused && p.firstLang.list.items != [] ==> p.role == BabySitter && p.race != race
    {
      || |p.firstLang.list.items| < 1
      || (p.role == BabySitter && ((race == Latino && p.race != Latino) || (p.race == White && race != White)))
    }

    /**
     * listen: unless refused, `words` items drawn from the speaker's first
     * lexicon (shuffled by a permutation built from `shuffleDraws`) are heard.
     */
    method Listen(p: Person, words: int, shuffleDraws: seq<nat>, ds: seq<HearDraw>, latinoMajority: bool)
      requires Separate()
      modifies this, OwnLists(), p.firstLang.list
      ensures Separate() && firstLang == old(firstLang)
      ensures old(Refuses(p)) ==> unchanged(this) && unchanged(OwnLists()) && unchanged(p.firstLang.list)
      ensures Snapshot() == old(Snapshot()).(status := status, secondLang := secondLang, tempMemBuffer := tempMemBuffer)
      ensures !old(Refuses(p)) && words >= 1 ==>
                status == StatusOf(ageClass, race, gender, socialClass, generation, latinoMajority)
      ensures words < 1 ==> status == old(status)
      ensures old(secondLang) == null && secondLang != null ==> fresh(secondLang) && fresh(secondLang.list)
    {
      if |p.firstLang.list.items| < 1 {
        return;
      }
      if p.role == BabySitter {
        if race == Latino && p.race != Latino {
          return;
        }
        if p.race == White && race != White {
          return;
        }
      }
      var speaker := p.firstLang;
      var perm := DrawPermutation(|speaker.list.items|, shuffleDraws);
      var items := speaker.GetRandomItems(words, perm);
      HearItems(items, ds, latinoMajority);
    }

    /**
     * listenToParents: nothing without parents; otherwise one parent is
     * drawn, and unless that parent's first lexicon is empty, `words` items
     * from it are heard.
     */
    method ListenToParents(pick: nat, words: int, shuffleDraws: seq<nat>, ds: seq<HearDraw>, latinoMajority: bool)
      requires Separate()
      modifies this, OwnLists(), set q | q in parents :: q.firstLang.list
      ensures Separate() && firstLang == old(firstLang)
      ensures |parents| == 0 ==> unchanged(this) && unchanged(OwnLists())
      ensures Snapshot() == old(Snapshot()).(status := status, secondLang := secondLang, tempMemBuffer := tempMemBuffer)
      ensures old(secondLang) == null && secondLang != null ==> fresh(secondLang) && fresh(secondLang.list)
    {
      if |parents| == 0 {
        return;
      }
      var parent := parents[DrawIndex(|parents|, pick)];
      if parent.firstLang.Size() < 1 {
        return;
      }
      var speaker := parent.firstLang;
      var perm := DrawPermutation(|speaker.list.items|, shuffleDraws);
      var items := speaker.GetRandomItems(words, perm);
      HearItems(items, ds, latinoMajority);
    }

    /**
     * step: teachers, babysitters and attractors do nothing. A child first
     * listens to a parent when `parentCoin` says so; then the speaker chosen
     * among `neighbours` (world.getNeighbors within the sight radius) is
     * listened to.
     */
    method Step(neighbours: seq<Person>, parentCoin: bool, pick: nat, words: int,
                parentShuffle: seq<nat>, parentDraws: seq<HearDraw>,
                speakerShuffle: seq<nat>, speakerDraws: seq<HearDraw>, latinoMajority: bool)
      requires Separate()
      modifies this, OwnLists(), set q | q in parents :: q.firstLang.list, set q | q in neighbours :: q.firstLang.list
      ensures role != Plain ==> unchanged(this) && unchanged(OwnLists())
      ensures Separate() && firstLang == old(firstLang)
      ensures Snapshot() == old(Snapshot()).(status := status, secondLang := secondLang, tempMemBuffer := tempMemBuffer)
    {
      if role != Plain {
        return;
      }
      if ageClass == Child && parentCoin {
        ListenToParents(pick, words, parentShuffle, parentDraws, latinoMajority);
      }
      var best, listen := ChooseSpeaker(neighbours);
      if listen {
        Listen(neighbours[best], words, speakerShuffle, speakerDraws, latinoMajority);
      }
    }
  }
}
