/**
 Placing selections into template slots: a first pass takes from pools by difficulty, a
 second fills the slots left empty.
 */
module SlotFilling {
  import opened Options
  import opened Identifiers
  import opened Content
  import opened SessionTemplate

  datatype ComposedItem = ComposedItem(content: ContentSelection, role: Role, position: nat, hintLevel: nat, difficulty: real)

  const HINT_NONE: nat := 0
  const HINT_CONTEXTUAL: nat := 1

  // The zero value of a selection: what an empty slot holds.
  const NO_CONTENT: ContentSelection :=
    ContentSelection(ContentAtom(NIL, None, [], "", [], [], 0.0, 0), "", NoRole, false)

  predicate IsEmpty(item: ComposedItem) {
    item.content.content.id == NIL
  }

  // ----- Pools -----

  datatype Band = Easy | Medium | Hard | VeryHard

  function BandOf(difficulty: real): Band {
    if difficulty < 0.3 then Easy
    else if difficulty < 0.6 then Medium
    else if difficulty < 0.8 then Hard
    else VeryHard
  }

  datatype Pools = Pools(easy: seq<ContentSelection>, medium: seq<ContentSelection>,
                         hard: seq<ContentSelection>, veryHard: seq<ContentSelection>)

  function Pool(p: Pools, b: Band): seq<ContentSelection> {
    match b
    case Easy => p.easy
    case Medium => p.medium
    case Hard => p.hard
    case VeryHard => p.veryHard
  }

  function WithPool(p: Pools, b: Band, s: seq<ContentSelection>): Pools {
    match b
    case Easy => p.(easy := s)
    case Medium => p.(medium := s)
    case Hard => p.(hard := s)
    case VeryHard => p.(veryHard := s)
  }

  function Left(p: Pools): multiset<ContentSelection> {
    multiset(p.easy) + multiset(p.medium) + multiset(p.hard) + multiset(p.veryHard)
  }

  // The band a role draws from, and the one it falls back on when that is used up.
  function FirstChoice(role: Role): Option<Band> {
    match role
    case Warmup => Some(Easy)
    case Cooldown => Some(Easy)
    case Ramp => Some(Medium)
    case Relief => Some(Medium)
    case Core => Some(Hard)
    case Challenge => Some(VeryHard)
    case NoRole => None
  }

  function SecondChoice(role: Role): Option<Band> {
    match role
    case Ramp => Some(Easy)
    case Relief => Some(Easy)
    case Core => Some(Medium)
    case Challenge => Some(Hard)
    case _ => None
  }

  ghost predicate OfBand(pool: seq<ContentSelection>, b: Band) {
    forall x :: x in pool ==> BandOf(x.content.difficulty) == b
  }

  // Every pool holds selections of its own band.
  ghost predicate Sorted(p: Pools) {
    OfBand(p.easy, Easy) && OfBand(p.medium, Medium) && OfBand(p.hard, Hard) && OfBand(p.veryHard, VeryHard)
  }

  function AddTo(p: Pools, s: ContentSelection): Pools {
    var b := BandOf(s.content.difficulty);
    WithPool(p, b, Pool(p, b) + [s])
  }

  // From easiest to hardest.
  ghost predicate Ascending(s: seq<ContentSelection>) {
    forall i, j :: 0 <= i < j < |s| ==> s[i].content.difficulty <= s[j].content.difficulty
  }

  ghost predicate AscendingPools(p: Pools) {
    Ascending(p.easy) && Ascending(p.medium) && Ascending(p.hard) && Ascending(p.veryHard)
  }

  ghost predicate NoneAbove(s: seq<ContentSelection>, difficulty: real) {
    forall i :: 0 <= i < |s| ==> s[i].content.difficulty <= difficulty
  }

  ghost predicate NonePooledAbove(p: Pools, difficulty: real) {
    NoneAbove(p.easy, difficulty) && NoneAbove(p.medium, difficulty)
    && NoneAbove(p.hard, difficulty) && NoneAbove(p.veryHard, difficulty)
  }

  lemma AppendAscending(s: seq<ContentSelection>, x: ContentSelection)
    requires Ascending(s) && NoneAbove(s, x.content.difficulty)
    ensures Ascending(s + [x]) && NoneAbove(s + [x], x.content.difficulty)
  {
  }

  lemma AddToAscending(p: Pools, s: ContentSelection, next: real)
    requires AscendingPools(p) && NonePooledAbove(p, s.content.difficulty) && s.content.difficulty <= next
    ensures AscendingPools(AddTo(p, s)) && NonePooledAbove(AddTo(p, s), next)
  {
    AppendAscending(Pool(p, BandOf(s.content.difficulty)), s);
    RaiseBound(AddTo(p, s), s.content.difficulty, next);
  }

  lemma RaiseBound(p: Pools, bound: real, next: real)
    requires NonePooledAbove(p, bound) && bound <= next
    ensures NonePooledAbove(p, next)
  {
  }

  lemma AddToPool(p: Pools, s: ContentSelection)
    requires Sorted(p)
    ensures Left(AddTo(p, s)) == Left(p) + multiset{s} && Sorted(AddTo(p, s))
  {
    var pool := Pool(p, BandOf(s.content.difficulty));
    assert multiset(pool + [s]) == multiset(pool) + multiset{s};
    assert forall x :: x in pool + [s] <==> x in pool || x == s;
  }

  lemma TakeFromPool(p: Pools, b: Band)
    requires Pool(p, b) != [] && Sorted(p)
    ensures var q := WithPool(p, b, Pool(p, b)[1..]);
      && Left(p) == Left(q) + multiset{Pool(p, b)[0]}
      && Sorted(q)
      && BandOf(Pool(p, b)[0].content.difficulty) == b
  {
    assert Pool(p, b) == [Pool(p, b)[0]] + Pool(p, b)[1..];
  }

  // The pools hold the first i selections.
  ghost predicate Pooled(selections: seq<ContentSelection>, i: nat, p: Pools)
    requires i <= |selections|
  {
    Left(p) == multiset(selections[..i]) && Sorted(p)
  }

  ghost predicate PooledInOrder(selections: seq<ContentSelection>, i: nat, p: Pools) {
    AscendingPools(p) && (i < |selections| ==> NonePooledAbove(p, selections[i].content.difficulty))
  }

  // The selections of a band among the first i, in order.
  function InBand(selections: seq<ContentSelection>, b: Band, i: nat): seq<ContentSelection>
    requires i <= |selections|
  {
    if i == 0 then []
    else InBand(selections, b, i - 1) + if BandOf(selections[i - 1].content.difficulty) == b then [selections[i - 1]] else []
  }

  ghost predicate PoolsAre(selections: seq<ContentSelection>, i: nat, p: Pools)
    requires i <= |selections|
  {
    forall b :: Pool(p, b) == InBand(selections, b, i)
  }

  lemma PoolsStep(selections: seq<ContentSelection>, i: nat, p: Pools)
    requires i < |selections| && PoolsAre(selections, i, p)
    ensures PoolsAre(selections, i + 1, AddTo(p, selections[i]))
  {
    forall b
      ensures Pool(AddTo(p, selections[i]), b) == InBand(selections, b, i + 1)
    {
      assert Pool(p, b) == InBand(selections, b, i);
    }
  }

  lemma PooledStep(selections: seq<ContentSelection>, i: nat, p: Pools)
    requires i < |selections| && Pooled(selections, i, p)
    ensures Pooled(selections, i + 1, AddTo(p, selections[i]))
  {
    assert selections[..i + 1] == selections[..i] + [selections[i]];
    AddToPool(p, selections[i]);
  }

  lemma PooledInOrderStep(selections: seq<ContentSelection>, i: nat, p: Pools)
    requires i < |selections| && Ascending(selections) && PooledInOrder(selections, i, p)
    ensures PooledInOrder(selections, i + 1, AddTo(p, selections[i]))
  {
    var next := if i + 1 < |selections| then selections[i + 1] else selections[i];
    AddToAscending(p, selections[i], next.content.difficulty);
  }

  method BuildPools(selections: seq<ContentSelection>) returns (p: Pools)
    ensures PoolsAre(selections, |selections|, p)
    ensures Left(p) == multiset(selections) && Sorted(p)
    ensures Ascending(selections) ==> AscendingPools(p)
  {
    p := Pools([], [], [], []);
    for i := 0 to |selections|
      invariant PoolsAre(selections, i, p) && Pooled(selections, i, p)
      invariant Ascending(selections) ==> PooledInOrder(selections, i, p)
    {
      PoolsStep(selections, i, p);
      PooledStep(selections, i, p);
      if Ascending(selections) {
        PooledInOrderStep(selections, i, p);
      }
      p := AddTo(p, selections[i]);
    }
    assert selections[..|selections|] == selections;
  }

  // ----- First pass -----

  function Contents(items: seq<ComposedItem>): seq<ContentSelection> {
    seq(|items|, i requires 0 <= i < |items| => items[i].content)
  }

  // The selections placed so far: the contents of the items that are not empty.
  function Placed(items: seq<ComposedItem>): multiset<ContentSelection> {
    if items == [] then multiset{}
    else Placed(items[..|items| - 1]) + if IsEmpty(items[|items| - 1]) then multiset{} else multiset{items[|items| - 1].content}
  }

  function Empties(items: seq<ComposedItem>): nat {
    if items == [] then 0
    else Empties(items[..|items| - 1]) + if IsEmpty(items[|items| - 1]) then 1 else 0
  }

  // The slot at position i got what its role asks for: a selection of its first band, or of
  // its second when all of the first is placed in earlier slots, or nothing when all of both is.
  ghost predicate FilledByRole(items: seq<ComposedItem>, all: multiset<ContentSelection>, i: nat)
    requires i < |items|
  {
    var role := items[i].role;
    if IsEmpty(items[i]) then
      UsedUp(items[..i], all, FirstChoice(role)) && UsedUp(items[..i], all, SecondChoice(role))
    else
      var band := Some(BandOf(items[i].content.content.difficulty));
      band == FirstChoice(role) || (band == SecondChoice(role) && UsedUp(items[..i], all, FirstChoice(role)))
  }

  // Every selection of the band is placed among these items.
  ghost predicate UsedUp(items: seq<ComposedItem>, all: multiset<ContentSelection>, band: Option<Band>) {
    band.Some? ==> forall x :: x in all && BandOf(x.content.difficulty) == band.value ==> Placed(items)[x] == all[x]
  }

  ghost predicate IsWithin(d: real, lo: Option<real>, hi: Option<real>) {
    (lo.Some? ==> lo.value <= d) && (hi.Some? ==> d < hi.value)
  }

  // Every selection with a difficulty from lo to below hi is placed among these items.
  ghost predicate AllPlaced(items: seq<ComposedItem>, all: multiset<ContentSelection>, lo: Option<real>, hi: Option<real>) {
    forall x :: x in all && IsWithin(x.content.difficulty, lo, hi) ==> Placed(items)[x] == all[x]
  }

  // The same in difficulties: warmups and cooldowns are below 0.3; ramps and reliefs from 0.3
  // to 0.6, cores from 0.6 to 0.8, challenges from 0.8 on, or one step easier when there is
  // nothing of that left.
  ghost predicate FitsRole(items: seq<ComposedItem>, all: multiset<ContentSelection>, i: nat)
    requires i < |items|
  {
    var d, before := items[i].content.content.difficulty, items[..i];
    match items[i].role
    case Warmup => if IsEmpty(items[i]) then AllPlaced(before, all, None, Some(0.3)) else d < 0.3
    case Cooldown => if IsEmpty(items[i]) then AllPlaced(before, all, None, Some(0.3)) else d < 0.3
    case Ramp => IsNearby(items[i], before, all, None, 0.3, Some(0.6))
    case Relief => IsNearby(items[i], before, all, None, 0.3, Some(0.6))
    case Core => IsNearby(items[i], before, all, Some(0.3), 0.6, Some(0.8))
    case Challenge => IsNearby(items[i], before, all, Some(0.6), 0.8, None)
    case NoRole => IsEmpty(items[i])
  }

  // From middle to hi, or from lo to middle when that is used up, or nothing when both are.
  ghost predicate IsNearby(item: ComposedItem, before: seq<ComposedItem>, all: multiset<ContentSelection>,
                           lo: Option<real>, middle: real, hi: Option<real>) {
    var d := item.content.content.difficulty;
    if IsEmpty(item) then AllPlaced(before, all, lo, hi)
    else
      && IsWithin(d, lo, hi)
      && (d < middle ==> AllPlaced(before, all, Some(middle), hi))
  }

  lemma FilledFitsRole(items: seq<ComposedItem>, all: multiset<ContentSelection>, i: nat)
    requires i < |items| && FilledByRole(items, all, i)
    ensures FitsRole(items, all, i)
  {
  }

  ghost predicate WellPlaced(items: seq<ComposedItem>, template: seq<Slot>) {
    && |items| <= |template|
    && forall i :: 0 <= i < |items| ==>
         && items[i].position == i
         && items[i].role == template[i].role
         && items[i].hintLevel == HINT_NONE
         && items[i].difficulty == items[i].content.content.difficulty
  }

  // The pool a role draws from now.
  function ChooseBand(role: Role, p: Pools): Option<Band> {
    match FirstChoice(role)
    case None => None
    case Some(first) =>
      if Pool(p, first) == [] && SecondChoice(role).Some? then SecondChoice(role) else Some(first)
  }

  ghost predicate Exhausted(p: Pools, band: Option<Band>) {
    band.Some? ==> Pool(p, band.value) == []
  }

  // Picking for one slot.
  method PickFor(role: Role, p: Pools) returns (picked: Option<ContentSelection>, q: Pools)
    requires Sorted(p)
    ensures Sorted(q)
    ensures picked.Some? ==>
              && Left(p) == Left(q) + multiset{picked.value}
              && var band := Some(BandOf(picked.value.content.difficulty));
                 band == FirstChoice(role) || (band == SecondChoice(role) && Exhausted(p, FirstChoice(role)))
    ensures picked.None? ==> q == p && Exhausted(p, FirstChoice(role)) && Exhausted(p, SecondChoice(role))
    ensures picked.Some? ==>
              var b := BandOf(picked.value.content.difficulty);
              Pool(p, b) != [] && picked.value == Pool(p, b)[0] && q == WithPool(p, b, Pool(p, b)[1..])
  {
    var band := ChooseBand(role, p);
    if band.None? || Pool(p, band.value) == [] {
      return None, p;
    }
    TakeFromPool(p, band.value);
    return Some(Pool(p, band.value)[0]), WithPool(p, band.value, Pool(p, band.value)[1..]);
  }

  // Selections of one band go out from easiest to hardest.
  ghost predicate EasierFirst(items: seq<ComposedItem>) {
    forall i, j :: 0 <= i < j < |items| && SameBand(items[i], items[j]) ==>
      items[i].content.content.difficulty <= items[j].content.content.difficulty
  }

  ghost predicate SameBand(a: ComposedItem, b: ComposedItem) {
    !IsEmpty(a) && !IsEmpty(b) && BandOf(a.content.content.difficulty) == BandOf(b.content.content.difficulty)
  }

  ghost predicate OrderInv(items: seq<ComposedItem>, p: Pools) {
    && AscendingPools(p)
    && EasierFirst(items)
    && forall i :: 0 <= i < |items| && !IsEmpty(items[i]) ==> NotAbovePool(items[i].content.content.difficulty, p)
  }

  ghost predicate NotAbovePool(difficulty: real, p: Pools) {
    var pool := Pool(p, BandOf(difficulty));
    pool != [] ==> difficulty <= pool[0].content.difficulty
  }

  // Taking the easiest of a pool leaves the pools in order and nothing easier in them.
  lemma PoolRises(p: Pools, b: Band)
    requires AscendingPools(p) && Pool(p, b) != []
    ensures AscendingPools(WithPool(p, b, Pool(p, b)[1..]))
    ensures forall difficulty :: NotAbovePool(difficulty, p) ==> NotAbovePool(difficulty, WithPool(p, b, Pool(p, b)[1..]))
  {
  }

  lemma OrderKept(items: seq<ComposedItem>, p: Pools, item: ComposedItem)
    requires OrderInv(items, p)
    requires var b := BandOf(item.content.content.difficulty); Pool(p, b) != [] && item.content == Pool(p, b)[0]
    ensures var b := BandOf(item.content.content.difficulty); OrderInv(items + [item], WithPool(p, b, Pool(p, b)[1..]))
  {
    var b := BandOf(item.content.content.difficulty);
    var q := WithPool(p, b, Pool(p, b)[1..]);
    PoolRises(p, b);
    forall i | 0 <= i <= |items| && !IsEmpty((items + [item])[i])
      ensures NotAbovePool((items + [item])[i].content.content.difficulty, q)
    {
      if i < |items| {
        assert NotAbovePool(items[i].content.content.difficulty, p);
      } else {
        assert NotAbovePool(item.content.content.difficulty, p);
      }
    }
    forall i | 0 <= i < |items| && SameBand(items[i], item)
      ensures items[i].content.content.difficulty <= item.content.content.difficulty
    {
      assert NotAbovePool(items[i].content.content.difficulty, p);
    }
  }

  lemma OrderKeptByEmpty(items: seq<ComposedItem>, p: Pools, item: ComposedItem)
    requires OrderInv(items, p) && IsEmpty(item)
    ensures OrderInv(items + [item], p)
  {
  }

  ghost predicate AllFilledByRole(items: seq<ComposedItem>, all: multiset<ContentSelection>) {
    forall k :: 0 <= k < |items| ==> FilledByRole(items, all, k)
  }

  lemma NextSlotFilled(items: seq<ComposedItem>, all: multiset<ContentSelection>, p: Pools, item: ComposedItem)
    requires Placed(items) + Left(p) == all && Sorted(p)
    requires AllFilledByRole(items, all)
    requires if IsEmpty(item) then Exhausted(p, FirstChoice(item.role)) && Exhausted(p, SecondChoice(item.role))
             else var band := Some(BandOf(item.content.content.difficulty));
                  band == FirstChoice(item.role) || (band == SecondChoice(item.role) && Exhausted(p, FirstChoice(item.role)))
    ensures AllFilledByRole(items + [item], all)
    ensures Placed(items + [item]) == Placed(items) + if IsEmpty(item) then multiset{} else multiset{item.content}
  {
    var longer := items + [item];
    assert longer[..|items|] == items;
    forall k | 0 <= k < |longer|
      ensures FilledByRole(longer, all, k)
    {
      assert longer[..k] == items[..k];
      if k < |items| {
        assert FilledByRole(items, all, k);
      } else {
        assert items[..k] == items;
        ExhaustedIsUsedUp(items, all, p, FirstChoice(item.role));
        ExhaustedIsUsedUp(items, all, p, SecondChoice(item.role));
      }
    }
  }

  // An empty pool means that everything of its band is placed.
  lemma ExhaustedIsUsedUp(items: seq<ComposedItem>, all: multiset<ContentSelection>, p: Pools, band: Option<Band>)
    requires Placed(items) + Left(p) == all && Sorted(p)
    ensures Exhausted(p, band) ==> UsedUp(items, all, band)
  {
  }

  // The content IDs are distinct and none is the absent one.
  ghost predicate Proper(selections: seq<ContentSelection>) {
    && DistinctContent(selections)
    && forall i :: 0 <= i < |selections| ==> selections[i].content.id != NIL
  }

  // The marks stand for exactly the selections placed so far.
  ghost predicate MarksPlaced(selections: seq<ContentSelection>, items: seq<ComposedItem>, used: set<nat>) {
    forall j: nat :: j in used <==> j < |selections| && selections[j] in Placed(items)
  }

  // The marking loop: the first unmarked selection with this content ID.
  method Mark(selections: seq<ContentSelection>, sel: ContentSelection, used: set<nat>) returns (used': set<nat>)
    ensures forall k: nat :: k < |selections| && k !in used && selections[k].content.id == sel.content.id
              && (forall j: nat :: j < k ==> j in used || selections[j].content.id != sel.content.id)
              ==> used' == used + {k}
    ensures (forall j: nat :: j < |selections| ==> j in used || selections[j].content.id != sel.content.id)
              ==> used' == used
  {
    for j := 0 to |selections|
      invariant forall k: nat :: k < j ==> k in used || selections[k].content.id != sel.content.id
    {
      if selections[j].content.id == sel.content.id && j !in used {
        return used + {j};
      }
    }
    return used;
  }

  lemma MarkKeepsMarks(selections: seq<ContentSelection>, items: seq<ComposedItem>, used: set<nat>, item: ComposedItem,
                       left: multiset<ContentSelection>, k: nat)
    requires Proper(selections) && MarksPlaced(selections, items, used)
    requires Placed(items) + multiset{item.content} + left == multiset(selections)
    requires k < |selections| && selections[k] == item.content
    ensures k !in used && forall j: nat :: j < k ==> selections[j].content.id != item.content.content.id
    ensures MarksPlaced(selections, items + [item], used + {k})
  {
    DistinctMultiplicity(selections, k);
    assert (items + [item])[..|items|] == items;
    assert Placed(items + [item]) == Placed(items) + multiset{item.content};
  }

  // Between two turns of the first pass.
  ghost predicate FirstPassInv(selections: seq<ContentSelection>, items: seq<ComposedItem>, used: set<nat>, p: Pools) {
    && Placed(items) + Left(p) == multiset(selections)
    && MarksPlaced(selections, items, used)
    && AllFilledByRole(items, multiset(selections))
  }

  lemma FirstPassKeeps(selections: seq<ContentSelection>, items: seq<ComposedItem>, used: set<nat>, p: Pools, q: Pools,
                       item: ComposedItem, k: nat)
    requires Proper(selections) && Sorted(p) && FirstPassInv(selections, items, used, p)
    requires k < |selections| && selections[k] == item.content && Left(p) == Left(q) + multiset{item.content}
    requires var band := Some(BandOf(item.content.content.difficulty));
      band == FirstChoice(item.role) || (band == SecondChoice(item.role) && Exhausted(p, FirstChoice(item.role)))
    ensures FirstPassInv(selections, items + [item], used + {k}, q)
    ensures k !in used && forall j: nat :: j < k ==> selections[j].content.id != item.content.content.id
  {
    MarkKeepsMarks(selections, items, used, item, Left(q), k);
    NextSlotFilled(items, multiset(selections), p, item);
  }

  lemma FirstPassSkips(selections: seq<ContentSelection>, items: seq<ComposedItem>, used: set<nat>, p: Pools, item: ComposedItem)
    requires Sorted(p) && FirstPassInv(selections, items, used, p)
    requires IsEmpty(item) && Exhausted(p, FirstChoice(item.role)) && Exhausted(p, SecondChoice(item.role))
    ensures FirstPassInv(selections, items + [item], used, p)
  {
    NextSlotFilled(items, multiset(selections), p, item);
  }

  lemma LeftIsSelected(selections: seq<ContentSelection>, items: seq<ComposedItem>, p: Pools, x: ContentSelection)
    requires Placed(items) + Left(p) == multiset(selections) && x in Left(p)
    ensures exists k: nat :: k < |selections| && selections[k] == x
  {
    assert x in multiset(selections);
  }

  method FirstPass(selections: seq<ContentSelection>, template: seq<Slot>) returns (items: seq<ComposedItem>, used: set<nat>)
    ensures |items| == |template| && WellPlaced(items, template)
    ensures Proper(selections) ==>
              && Placed(items) <= multiset(selections)
              && MarksPlaced(selections, items, used)
              && AllFilledByRole(items, multiset(selections))
    ensures Ascending(selections) ==> EasierFirst(items)
  {
    var p := BuildPools(selections);
    items, used := [], {};
    for i := 0 to |template|
      invariant |items| == i && WellPlaced(items, template)
      invariant Sorted(p) && PassInv(selections, items, used, p)
    {
      items, used, p := PlaceNext(selections, template[i].role, items, used, p);
    }
  }

  // The invariants of the first pass, for the selections that have them.
  ghost predicate PassInv(selections: seq<ContentSelection>, items: seq<ComposedItem>, used: set<nat>, p: Pools) {
    && (Proper(selections) ==> FirstPassInv(selections, items, used, p))
    && (Ascending(selections) ==> OrderInv(items, p))
  }

  lemma SkippingKeeps(selections: seq<ContentSelection>, items: seq<ComposedItem>, used: set<nat>, p: Pools, item: ComposedItem)
    requires Sorted(p) && PassInv(selections, items, used, p)
    requires IsEmpty(item) && Exhausted(p, FirstChoice(item.role)) && Exhausted(p, SecondChoice(item.role))
    ensures PassInv(selections, items + [item], used, p)
  {
    if Proper(selections) {
      FirstPassSkips(selections, items, used, p, item);
    }
    if Ascending(selections) {
      OrderKeptByEmpty(items, p, item);
    }
  }

  lemma PlacingKeeps(selections: seq<ContentSelection>, items: seq<ComposedItem>, used: set<nat>, used': set<nat>, p: Pools,
                     q: Pools, item: ComposedItem)
    requires Sorted(p) && PassInv(selections, items, used, p)
    requires Left(p) == Left(q) + multiset{item.content}
    requires var band := Some(BandOf(item.content.content.difficulty));
      band == FirstChoice(item.role) || (band == SecondChoice(item.role) && Exhausted(p, FirstChoice(item.role)))
    requires var b := BandOf(item.content.content.difficulty);
      Pool(p, b) != [] && item.content == Pool(p, b)[0] && q == WithPool(p, b, Pool(p, b)[1..])
    requires forall k: nat :: k < |selections| && k !in used && selections[k].content.id == item.content.content.id
               && (forall j: nat :: j < k ==> j in used || selections[j].content.id != item.content.content.id)
               ==> used' == used + {k}
    ensures PassInv(selections, items + [item], used', q)
  {
    if Proper(selections) {
      LeftIsSelected(selections, items, p, item.content);
      var k: nat :| k < |selections| && selections[k] == item.content;
      FirstPassKeeps(selections, items, used, p, q, item, k);
    }
    if Ascending(selections) {
      OrderKept(items, p, item);
    }
  }

  // One turn of the first pass: pick, place, and mark.
  method PlaceNext(selections: seq<ContentSelection>, role: Role, items: seq<ComposedItem>, used: set<nat>, p: Pools)
    returns (items': seq<ComposedItem>, used': set<nat>, p': Pools)
    requires Sorted(p) && PassInv(selections, items, used, p)
    ensures Sorted(p') && PassInv(selections, items', used', p')
    ensures |items'| == |items| + 1 && items'[..|items|] == items
    ensures var item := items'[|items|];
      item == ComposedItem(item.content, role, |items|, HINT_NONE, item.content.content.difficulty)
  {
    var picked;
    picked, p' := PickFor(role, p);
    used' := used;
    if picked.None? {
      var item := ComposedItem(NO_CONTENT, role, |items|, HINT_NONE, 0.0);
      SkippingKeeps(selections, items, used, p, item);
      items' := items + [item];
    } else {
      var item := ComposedItem(picked.value, role, |items|, HINT_NONE, picked.value.content.difficulty);
      used' := Mark(selections, picked.value, used);
      PlacingKeeps(selections, items, used, used', p, p', item);
      items' := items + [item];
    }
  }

  // ----- Second pass -----

  // Among the first j selections, these are the ones not placed.
  ghost predicate IsUnplaced(selections: seq<ContentSelection>, j: nat, placed: multiset<ContentSelection>,
                             remaining: multiset<ContentSelection>)
    requires j <= |selections|
  {
    forall x :: remaining[x] == if x in placed then 0 else multiset(selections[..j])[x]
  }

  lemma UnplacedStep(selections: seq<ContentSelection>, j: nat, placed: multiset<ContentSelection>, remaining: multiset<ContentSelection>)
    requires j < |selections| && IsUnplaced(selections, j, placed, remaining)
    ensures IsUnplaced(selections, j + 1, placed,
                       remaining + if selections[j] in placed then multiset{} else multiset{selections[j]})
  {
    assert selections[..j + 1] == selections[..j] + [selections[j]];
  }

  lemma UnplacedIsRest(selections: seq<ContentSelection>, placed: multiset<ContentSelection>, remaining: multiset<ContentSelection>)
    requires Proper(selections) && placed <= multiset(selections) && IsUnplaced(selections, |selections|, placed, remaining)
    ensures multiset(selections) == placed + remaining
  {
    assert selections[..|selections|] == selections;
    forall x
      ensures multiset(selections)[x] == (placed + remaining)[x]
    {
      if x in placed {
        assert x in multiset(selections);
        var k: nat :| k < |selections| && selections[k] == x;
        DistinctMultiplicity(selections, k);
      }
    }
  }

  function WithUnmarked(selections: seq<ContentSelection>, used: set<nat>, j: nat, remaining: seq<ContentSelection>): seq<ContentSelection>
    requires j < |selections|
  {
    if j in used then remaining else remaining + [selections[j]]
  }

  // What is not marked among the first j selections, in order.
  function WithoutMarked(selections: seq<ContentSelection>, used: set<nat>, j: nat): seq<ContentSelection>
    requires j <= |selections|
  {
    if j == 0 then [] else WithUnmarked(selections, used, j - 1, WithoutMarked(selections, used, j - 1))
  }

  lemma UnmarkedStep(selections: seq<ContentSelection>, items: seq<ComposedItem>, used: set<nat>, j: nat, remaining: seq<ContentSelection>)
    requires j < |selections| && MarksPlaced(selections, items, used)
    requires IsUnplaced(selections, j, Placed(items), multiset(remaining))
    ensures IsUnplaced(selections, j + 1, Placed(items), multiset(WithUnmarked(selections, used, j, remaining)))
  {
    UnplacedStep(selections, j, Placed(items), multiset(remaining));
  }

  ghost predicate UnmarkedInOrder(selections: seq<ContentSelection>, j: nat, remaining: seq<ContentSelection>) {
    Ascending(remaining) && (j < |selections| ==> NoneAbove(remaining, selections[j].content.difficulty))
  }

  lemma UnmarkedInOrderStep(selections: seq<ContentSelection>, used: set<nat>, j: nat, remaining: seq<ContentSelection>)
    requires j < |selections| && Ascending(selections) && UnmarkedInOrder(selections, j, remaining)
    ensures UnmarkedInOrder(selections, j + 1, WithUnmarked(selections, used, j, remaining))
  {
  }

  // What is not marked, in order.
  method Unmarked(selections: seq<ContentSelection>, used: set<nat>, ghost items: seq<ComposedItem>)
    returns (remaining: seq<ContentSelection>)
    ensures Proper(selections) && MarksPlaced(selections, items, used) && Placed(items) <= multiset(selections) ==>
              multiset(selections) == Placed(items) + multiset(remaining)
    ensures remaining == WithoutMarked(selections, used, |selections|)
    ensures Ascending(selections) ==> Ascending(remaining)
  {
    remaining := [];
    for j := 0 to |selections|
      invariant remaining == WithoutMarked(selections, used, j)
      invariant MarksPlaced(selections, items, used) ==>
                  IsUnplaced(selections, j, Placed(items), multiset(remaining))
      invariant Ascending(selections) ==> UnmarkedInOrder(selections, j, remaining)
    {
      if MarksPlaced(selections, items, used) {
        UnmarkedStep(selections, items, used, j, remaining);
      }
      if Ascending(selections) {
        UnmarkedInOrderStep(selections, used, j, remaining);
      }
      remaining := WithUnmarked(selections, used, j, remaining);
    }
    if Proper(selections) && MarksPlaced(selections, items, used) && Placed(items) <= multiset(selections) {
      UnplacedIsRest(selections, Placed(items), multiset(remaining));
    }
  }

  lemma {:induction false} PlacedAndEmpties(items: seq<ComposedItem>)
    ensures |Placed(items)| + Empties(items) == |items|
  {
    if items != [] {
      PlacedAndEmpties(items[..|items| - 1]);
    }
  }

  // The same counts for the first i items, by index.
  function PlacedUpTo(items: seq<ComposedItem>, i: nat): multiset<ContentSelection>
    requires i <= |items|
  {
    if i == 0 then multiset{}
    else PlacedUpTo(items, i - 1) + if IsEmpty(items[i - 1]) then multiset{} else multiset{items[i - 1].content}
  }

  function EmptiesUpTo(items: seq<ComposedItem>, i: nat): nat
    requires i <= |items|
  {
    if i == 0 then 0 else EmptiesUpTo(items, i - 1) + if IsEmpty(items[i - 1]) then 1 else 0
  }

  lemma {:induction false} UpToIsPrefix(items: seq<ComposedItem>, i: nat)
    requires i <= |items|
    ensures PlacedUpTo(items, i) == Placed(items[..i]) && EmptiesUpTo(items, i) == Empties(items[..i])
  {
    if i > 0 {
      UpToIsPrefix(items, i - 1);
      assert items[..i][..i - 1] == items[..i - 1];
    }
  }

  lemma {:induction false} EmptiesUpToMonotone(items: seq<ComposedItem>, i: nat, j: nat)
    requires i <= j <= |items|
    ensures EmptiesUpTo(items, i) <= EmptiesUpTo(items, j)
  {
    if i < j {
      EmptiesUpToMonotone(items, i, j - 1);
    }
  }

  // The empty slots take the remaining selections in order; the others stay as they are.
  ghost predicate EmptiesFilled(items: seq<ComposedItem>, remaining: seq<ContentSelection>, filled: seq<ComposedItem>) {
    && |filled| <= |items|
    && forall i :: 0 <= i < |filled| ==>
         FilledAt(items, remaining, filled, i)
  }

  ghost predicate FilledAt(items: seq<ComposedItem>, remaining: seq<ContentSelection>, filled: seq<ComposedItem>, i: nat)
    requires i < |filled| <= |items|
  {
    var taken := EmptiesUpTo(items, i);
    filled[i] == if IsEmpty(items[i]) && taken < |remaining| then WithContent(items[i], remaining[taken]) else items[i]
  }

  function WithContent(item: ComposedItem, s: ContentSelection): ComposedItem {
    item.(content := s, difficulty := s.content.difficulty)
  }

  method SecondPass(items: seq<ComposedItem>, remaining: seq<ContentSelection>) returns (filled: seq<ComposedItem>)
    ensures |filled| == |items| && EmptiesFilled(items, remaining, filled)
  {
    filled := [];
    var remIdx := 0;
    for i := 0 to |items|
      invariant |filled| == i && EmptiesFilled(items, remaining, filled)
      invariant remIdx == if EmptiesUpTo(items, i) < |remaining| then EmptiesUpTo(items, i) else |remaining|
    {
      var item := items[i];
      if IsEmpty(item) && remIdx < |remaining| {
        item := WithContent(item, remaining[remIdx]);
        remIdx := remIdx + 1;
      }
      var longer := filled + [item];
      forall k | 0 <= k < i
        ensures FilledAt(items, remaining, longer, k)
      {
        assert FilledAt(items, remaining, filled, k);
      }
      filled := longer;
    }
  }

  lemma PrefixMultiset(s: seq<ContentSelection>, i: nat)
    requires i < |s|
    ensures multiset(s[..i + 1]) == multiset(s[..i]) + multiset{s[i]}
  {
    assert s[..i + 1] == s[..i] + [s[i]];
  }

  // The first i slots hold what was placed in them and the remaining selections taken by them.
  ghost predicate Balanced(items: seq<ComposedItem>, remaining: seq<ContentSelection>, filled: seq<ComposedItem>, i: nat)
    requires i <= |items| == |filled|
  {
    && EmptiesUpTo(items, i) <= |remaining|
    && multiset(Contents(filled)[..i]) == PlacedUpTo(items, i) + multiset(remaining[..EmptiesUpTo(items, i)])
  }

  // With as many empty slots as selections left, nothing is lost and nothing duplicated.
  lemma {:induction false} FillingRearranges(items: seq<ComposedItem>, remaining: seq<ContentSelection>, filled: seq<ComposedItem>, i: nat)
    requires i <= |items| == |filled| && EmptiesFilled(items, remaining, filled)
    requires EmptiesUpTo(items, |items|) == |remaining|
    ensures Balanced(items, remaining, filled, i)
  {
    if i > 0 {
      FillingRearranges(items, remaining, filled, i - 1);
      EmptiesUpToMonotone(items, i, |items|);
      BalancedStep(items, remaining, filled, i - 1);
    }
  }

  lemma BalancedStep(items: seq<ComposedItem>, remaining: seq<ContentSelection>, filled: seq<ComposedItem>, i: nat)
    requires i < |items| == |filled| && EmptiesFilled(items, remaining, filled)
    requires Balanced(items, remaining, filled, i) && EmptiesUpTo(items, i + 1) <= |remaining|
    ensures Balanced(items, remaining, filled, i + 1)
  {
    ContentsPrefix(filled, i);
    FilledSlotCounts(items, remaining, filled, i);
  }

  lemma ContentsPrefix(items: seq<ComposedItem>, i: nat)
    requires i < |items|
    ensures multiset(Contents(items)[..i + 1]) == multiset(Contents(items)[..i]) + multiset{items[i].content}
  {
    PrefixMultiset(Contents(items), i);
  }

  // What one slot adds to either side.
  lemma FilledSlotCounts(items: seq<ComposedItem>, remaining: seq<ContentSelection>, filled: seq<ComposedItem>, i: nat)
    requires i < |items| == |filled| && EmptiesFilled(items, remaining, filled) && EmptiesUpTo(items, i + 1) <= |remaining|
    ensures PlacedUpTo(items, i) + multiset(remaining[..EmptiesUpTo(items, i)]) + multiset{filled[i].content}
         == PlacedUpTo(items, i + 1) + multiset(remaining[..EmptiesUpTo(items, i + 1)])
  {
    assert FilledAt(items, remaining, filled, i);
    var taken := EmptiesUpTo(items, i);
    if IsEmpty(items[i]) {
      PrefixMultiset(remaining, taken);
    }
  }

  lemma FilledIsRearranged(items: seq<ComposedItem>, remaining: seq<ContentSelection>, filled: seq<ComposedItem>)
    requires |items| == |filled| && EmptiesFilled(items, remaining, filled) && Empties(items) == |remaining|
    ensures multiset(Contents(filled)) == Placed(items) + multiset(remaining)
  {
    UpToIsPrefix(items, |items|);
    assert items[..|items|] == items && remaining[..|remaining|] == remaining;
    FillingRearranges(items, remaining, filled, |items|);
    assert Contents(filled)[..|items|] == Contents(filled);
  }

  lemma EmptyCounts(items: seq<ComposedItem>, i: nat, j: nat)
    requires i < j <= |items| && IsEmpty(items[i])
    ensures EmptiesUpTo(items, i) < EmptiesUpTo(items, j)
  {
  }

  lemma FilledInOrder(items: seq<ComposedItem>, remaining: seq<ContentSelection>, filled: seq<ComposedItem>, i: nat, j: nat)
    requires |items| == |filled| && EmptiesFilled(items, remaining, filled) && EmptiesUpTo(items, |items|) == |remaining|
    requires Ascending(remaining) && i < j < |items| && IsEmpty(items[i]) && IsEmpty(items[j])
    ensures filled[i].difficulty <= filled[j].difficulty
  {
    EmptyCounts(items, i, j);
    EmptyCounts(items, j, |items|);
    assert FilledAt(items, remaining, filled, i);
    assert FilledAt(items, remaining, filled, j);
  }

  lemma FilledIsWellPlaced(items: seq<ComposedItem>, remaining: seq<ContentSelection>, filled: seq<ComposedItem>, template: seq<Slot>)
    requires |items| == |filled| && EmptiesFilled(items, remaining, filled) && WellPlaced(items, template)
    ensures WellPlaced(filled, template)
    ensures forall i :: 0 <= i < |items| ==>
              items[i].role == filled[i].role && (!IsEmpty(items[i]) ==> filled[i] == items[i])
  {
    forall i | 0 <= i < |items|
      ensures filled[i] == items[i] || (IsEmpty(items[i]) && filled[i] == WithContent(items[i], filled[i].content))
    {
      assert FilledAt(items, remaining, filled, i);
    }
  }

  // ----- The placement -----

  // What placement promises: every selection in exactly one slot, each slot by its role as
  // long as there is something for it, and easier selections before harder ones, both within
  // a band and among the slots that had to take what was left.
  ghost predicate Rearranged(selections: seq<ContentSelection>, first: seq<ComposedItem>, items: seq<ComposedItem>) {
    && multiset(Contents(items)) == multiset(selections)
    && |first| == |items|
    && AllFilledByRole(first, multiset(selections))
    && (forall i :: 0 <= i < |first| ==> FitsRole(first, multiset(selections), i))
    && EasierFirst(first)
    && (forall i :: 0 <= i < |items| ==>
          first[i].role == items[i].role && (!IsEmpty(first[i]) ==> items[i] == first[i]))
    && (forall i, j :: 0 <= i < j < |items| && IsEmpty(first[i]) && IsEmpty(first[j]) ==>
          items[i].difficulty <= items[j].difficulty)
  }

  // On sorted selections with distinct, present content IDs, one per slot, placement is a
  // rearrangement; `first` is what the first pass leaves.
  method PlaceItems(selections: seq<ContentSelection>, template: seq<Slot>)
    returns (items: seq<ComposedItem>, ghost first: seq<ComposedItem>)
    ensures |items| == |template| && WellPlaced(items, template)
    ensures Proper(selections) && Ascending(selections) && |selections| == |template| ==>
              Rearranged(selections, first, items)
  {
    var matched, used := FirstPass(selections, template);
    first := matched;
    var remaining := Unmarked(selections, used, matched);
    items := SecondPass(matched, remaining);
    FilledIsWellPlaced(matched, remaining, items, template);
    if Proper(selections) && Ascending(selections) && |selections| == |template| {
      forall i | 0 <= i < |matched|
        ensures FitsRole(matched, multiset(selections), i)
      {
        FilledFitsRole(matched, multiset(selections), i);
      }
      PlacedAndEmpties(matched);
      assert |multiset(selections)| == |Placed(matched)| + |multiset(remaining)|;
      FilledIsRearranged(matched, remaining, items);
      UpToIsPrefix(matched, |matched|);
      assert matched[..|matched|] == matched;
      forall i, j | 0 <= i < j < |items| && IsEmpty(first[i]) && IsEmpty(first[j])
        ensures items[i].difficulty <= items[j].difficulty
      {
        FilledInOrder(matched, remaining, items, i, j);
      }
    }
  }
}
