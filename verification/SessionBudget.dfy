/**
 What trimming a session to its time budget leaves: which items go, in which order, and what
 the rest looks like. Sessions are lists of composed items here; the session object that is
 trimmed in place is in SessionComposer.
 */
module SessionBudget {
  import opened Sequences
  import opened Content
  import opened SlotFilling

  const SHORT_COOLDOWN: int := 15

  function Seconds(item: ComposedItem): int {
    EstimatedSeconds(item.content.content)
  }

  // The estimated time of the first n items.
  function TimeUpTo(items: seq<ComposedItem>, n: nat): int
    requires n <= |items|
  {
    if n == 0 then 0 else TimeUpTo(items, n - 1) + Seconds(items[n - 1])
  }

  function TotalTime(items: seq<ComposedItem>): int {
    TimeUpTo(items, |items|)
  }

  // Items that each take as long, take that long times their number.
  lemma {:induction false} TimeOfEqual(items: seq<ComposedItem>, each: int, n: nat)
    requires n <= |items| && forall x :: x in items ==> EstimatedSeconds(x.content.content) == each
    ensures TimeUpTo(items, n) == n * each
  {
    if n > 0 {
      TimeOfEqual(items, each, n - 1);
      assert items[n - 1] in items;
    }
  }

  lemma {:induction false} TimeAgrees(a: seq<ComposedItem>, b: seq<ComposedItem>, n: nat)
    requires n <= |a| && n <= |b|
    requires forall i :: 0 <= i < n ==> Seconds(a[i]) == Seconds(b[i])
    ensures TimeUpTo(a, n) == TimeUpTo(b, n)
  {
    if n > 0 {
      TimeAgrees(a, b, n - 1);
    }
  }

  lemma {:induction false} TimeReplaced(items: seq<ComposedItem>, i: nat, item: ComposedItem, n: nat)
    requires i < n <= |items|
    ensures TimeUpTo(items[i := item], n) == TimeUpTo(items, n) - Seconds(items[i]) + Seconds(item)
  {
    if n == i + 1 {
      TimeAgrees(items, items[i := item], i);
    } else {
      TimeReplaced(items, i, item, n - 1);
    }
  }

  // The session with position r gone and the rest numbered from 0.
  function Removed(items: seq<ComposedItem>, r: nat): seq<ComposedItem>
    requires r < |items|
  {
    Renumbered(Without(items, r))
  }

  function Renumbered(items: seq<ComposedItem>): seq<ComposedItem> {
    seq(|items|, j requires 0 <= j < |items| => items[j].(position := j))
  }

  lemma {:induction false} TimeRemoved(items: seq<ComposedItem>, r: nat, n: nat)
    requires r < n <= |items|
    ensures TimeUpTo(Removed(items, r), n - 1) == TimeUpTo(items, n) - Seconds(items[r])
  {
    if n == r + 1 {
      TimeAgrees(items, Removed(items, r), r);
    } else {
      TimeRemoved(items, r, n - 1);
    }
  }

  // ----- Which items go -----

  // The opening item and warmups are never removed.
  predicate Removable(items: seq<ComposedItem>, i: nat)
    requires i < |items|
  {
    i >= 1 && items[i].role != Warmup
  }

  function RemovableFrom(items: seq<ComposedItem>, i: nat): nat
    requires i <= |items|
    decreases |items| - i
  {
    if i == |items| then 0 else (if Removable(items, i) then 1 else 0) + RemovableFrom(items, i + 1)
  }

  // When the last k removable items are gone, item i is still there.
  predicate Survives(items: seq<ComposedItem>, k: nat, i: nat)
    requires i < |items|
  {
    Removable(items, i) ==> RemovableFrom(items, i + 1) >= k
  }

  lemma {:induction false} RemovableFromBound(items: seq<ComposedItem>, a: nat, k: nat)
    requires a <= |items|
    requires forall i :: a <= i < |items| ==> Removable(items, i) ==> !Survives(items, k, i)
    ensures RemovableFrom(items, a) <= k
    decreases |items| - a
  {
    if a < |items| {
      RemovableFromBound(items, a + 1, k);
      assert Removable(items, a) ==> !Survives(items, k, a);
    }
  }

  lemma {:induction false} RemovableFromMonotone(items: seq<ComposedItem>, a: nat, b: nat)
    requires a <= b <= |items|
    ensures RemovableFrom(items, a) >= RemovableFrom(items, b)
    decreases b - a
  {
    if a < b {
      RemovableFromMonotone(items, a + 1, b);
    }
  }

  // Removing the last removable survivor r of k removals gives the survivors of k + 1.
  lemma NextRemoval(items: seq<ComposedItem>, k: nat, r: nat)
    requires r < |items| && Removable(items, r) && Survives(items, k, r)
    requires forall i :: r < i < |items| ==> Removable(items, i) ==> !Survives(items, k, i)
    ensures forall i :: 0 <= i < |items| ==> (Survives(items, k + 1, i) <==> Survives(items, k, i) && i != r)
  {
    RemovableFromBound(items, r + 1, k);
    forall i | 0 <= i < |items|
      ensures Survives(items, k + 1, i) <==> Survives(items, k, i) && i != r
    {
      if i < r {
        RemovableFromMonotone(items, i + 1, r);
      } else if i > r {
        assert Removable(items, i) ==> !Survives(items, k, i);
      }
    }
  }

  // ----- What is left -----

  // The same item, except for its position and a cooldown cut to fifteen seconds.
  ghost predicate IsTrimmed(was: ComposedItem, now: ComposedItem) {
    var time := now.content.content.estimatedTime;
    && now == was.(position := now.position, content := was.content.(content := was.content.content.(estimatedTime := time)))
    && (time == was.content.content.estimatedTime
        || (was.role == Cooldown && Seconds(was) > 15 && time == 15))
  }

  // `kept` lists, in order, the items still there when the last k removable ones are gone.
  ghost predicate Keeps(was: seq<ComposedItem>, k: nat, kept: seq<nat>) {
    && (forall i, j :: 0 <= i < j < |kept| ==> kept[i] < kept[j])
    && (forall j :: 0 <= j < |kept| ==> kept[j] < |was| && Survives(was, k, kept[j]))
    && (forall i {:trigger i in kept} :: 0 <= i < |was| && Survives(was, k, i) ==> i in kept)
  }

  // The last k removable items are gone, the others are in order, and positions count from 0
  // once something was removed.
  ghost predicate TrimmedTo(was: seq<ComposedItem>, k: nat, kept: seq<nat>, now: seq<ComposedItem>) {
    && |kept| == |now|
    && Keeps(was, k, kept)
    && (forall j :: 0 <= j < |kept| ==> IsTrimmed(was[kept[j]], now[j]))
    && (forall j :: 0 <= j < |kept| ==> k > 0 ==> now[j].position == j)
    && (forall j :: 0 <= j < |kept| ==> k == 0 ==> kept[j] == j && now[j].position == was[kept[j]].position)
  }

  lemma NothingTrimmed(items: seq<ComposedItem>) returns (kept: seq<nat>)
    ensures TrimmedTo(items, 0, kept, items)
  {
    kept := seq(|items|, i => i);
    forall i | 0 <= i < |items|
      ensures i in kept
    {
      assert kept[i] == i;
    }
  }

  function Shortened(item: ComposedItem): ComposedItem {
    item.(content := item.content.(content := item.content.content.(estimatedTime := SHORT_COOLDOWN)))
  }

  ghost predicate LastRemovable(items: seq<ComposedItem>, r: nat) {
    r < |items| && Removable(items, r) && forall i :: r < i < |items| ==> !Removable(items, i)
  }

  // The survivor at position j of what is left stands at kept[j] in what was.
  lemma LastOfKept(was: seq<ComposedItem>, k: nat, kept: seq<nat>, now: seq<ComposedItem>, j: nat)
    requires TrimmedTo(was, k, kept, now) && LastRemovable(now, j)
    ensures kept[j] >= 1 && Removable(was, kept[j])
    ensures forall i :: kept[j] < i < |was| ==> Removable(was, i) ==> !Survives(was, k, i)
  {
    assert kept[0] < kept[j];
    assert IsTrimmed(was[kept[j]], now[j]);
    forall m | j < m < |kept|
      ensures !Removable(was, kept[m])
    {
      assert IsTrimmed(was[kept[m]], now[m]) && !Removable(now, m);
    }
    forall i | kept[j] < i < |was|
      ensures Removable(was, i) ==> !Survives(was, k, i)
    {
      if Survives(was, k, i) {
        assert i in kept;
        var m :| 0 <= m < |kept| && kept[m] == i;
        assert m > j;
      }
    }
  }

  lemma DropKeepsOthers<T>(s: seq<T>, j: nat, x: T)
    requires j < |s| && x in s && x != s[j]
    ensures x in Without(s, j)
  {
  }

  lemma KeepsStep(was: seq<ComposedItem>, k: nat, kept: seq<nat>, j: nat)
    requires Keeps(was, k, kept) && j < |kept|
    requires forall i :: 0 <= i < |was| ==> (Survives(was, k + 1, i) <==> Survives(was, k, i) && i != kept[j])
    ensures Keeps(was, k + 1, Without(kept, j))
  {
    forall i | 0 <= i < |was| && Survives(was, k + 1, i)
      ensures i in Without(kept, j)
    {
      assert i in kept;
      DropKeepsOthers(kept, j, i);
    }
  }

  lemma RemoveStep(was: seq<ComposedItem>, k: nat, kept: seq<nat>, now: seq<ComposedItem>, j: nat)
    requires TrimmedTo(was, k, kept, now) && LastRemovable(now, j)
    ensures TrimmedTo(was, k + 1, Without(kept, j), Removed(now, j))
    ensures forall i :: 0 <= i < |was| ==> (Survives(was, k + 1, i) <==> Survives(was, k, i) && i != kept[j])
  {
    LastOfKept(was, k, kept, now, j);
    NextRemoval(was, k, kept[j]);
    KeepsStep(was, k, kept, j);
    forall m | 0 <= m < |kept| - 1
      ensures IsTrimmed(was[Without(kept, j)[m]], Removed(now, j)[m])
    {
      var from := if m < j then m else m + 1;
      assert IsTrimmed(was[kept[from]], now[from]);
    }
  }

  // ----- No more goes than must -----

  // Templates put a cooldown at the end or nowhere.
  ghost predicate CooldownOnlyLast(items: seq<ComposedItem>) {
    forall i :: 0 <= i < |items| - 1 ==> items[i].role != Cooldown
  }

  // Putting the item removed last back, a cooldown as short as it gets, would break the limit.
  ghost predicate Tight(was: seq<ComposedItem>, k: nat, total: int, limit: int) {
    k > 0 ==> forall i {:trigger Survives(was, k, i)} :: 0 <= i < |was| && Survives(was, k - 1, i) && !Survives(was, k, i) ==>
      total + (if was[i].role == Cooldown && Seconds(was[i]) > 15 then 15 else Seconds(was[i])) > limit
  }

  lemma TightStep(was: seq<ComposedItem>, k: nat, kept: seq<nat>, now: seq<ComposedItem>, j: nat, total: int, limit: int)
    requires TrimmedTo(was, k, kept, now) && LastRemovable(now, j)
    requires total > limit && (now[j].role == Cooldown ==> Seconds(now[j]) <= SHORT_COOLDOWN)
    ensures Tight(was, k + 1, total - Seconds(now[j]), limit)
  {
    RemoveStep(was, k, kept, now, j);
    assert IsTrimmed(was[kept[j]], now[j]);
  }

  // What holds throughout trimming.
  ghost predicate TrimInv(was: seq<ComposedItem>, k: nat, kept: seq<nat>, now: seq<ComposedItem>, total: int, limit: int) {
    && TrimmedTo(was, k, kept, now)
    && (k > 0 ==> |now| >= 2)
    && (CooldownOnlyLast(was) ==> Tight(was, k, total, limit))
  }

  predicate CanShorten(items: seq<ComposedItem>) {
    items != [] && items[|items| - 1].role == Cooldown && Seconds(items[|items| - 1]) > SHORT_COOLDOWN
  }

  function ShortenedLast(items: seq<ComposedItem>): seq<ComposedItem>
    requires items != []
  {
    items[|items| - 1 := Shortened(items[|items| - 1])]
  }

  lemma TimeShortened(items: seq<ComposedItem>)
    requires items != []
    ensures TotalTime(ShortenedLast(items)) == TotalTime(items) - Seconds(items[|items| - 1]) + SHORT_COOLDOWN
  {
    TimeReplaced(items, |items| - 1, Shortened(items[|items| - 1]), |items|);
  }

  lemma TrimInvShorten(was: seq<ComposedItem>, k: nat, kept: seq<nat>, now: seq<ComposedItem>, total: int, limit: int)
    requires TrimInv(was, k, kept, now, total, limit) && |now| >= 2 && CanShorten(now)
    ensures TrimInv(was, k, kept, ShortenedLast(now), total - Seconds(now[|now| - 1]) + SHORT_COOLDOWN, limit)
  {
  }

  lemma TrimInvRemove(was: seq<ComposedItem>, k: nat, kept: seq<nat>, now: seq<ComposedItem>, r: nat, total: int, limit: int)
    requires TrimInv(was, k, kept, now, total, limit) && |now| > 2 && total > limit
    requires LastRemovable(now, r) && !CanShorten(now)
    ensures TrimInv(was, k + 1, Without(kept, r), Removed(now, r), total - Seconds(now[r]), limit)
  {
    RemoveStep(was, k, kept, now, r);
    if CooldownOnlyLast(was) {
      CooldownStaysLast(was, k, kept, now, r);
      TightStep(was, k, kept, now, r, total, limit);
    }
  }

  lemma CooldownStaysLast(was: seq<ComposedItem>, k: nat, kept: seq<nat>, now: seq<ComposedItem>, j: nat)
    requires TrimmedTo(was, k, kept, now) && CooldownOnlyLast(was) && j < |now|
    ensures now[j].role == Cooldown ==> j == |now| - 1
  {
    assert IsTrimmed(was[kept[j]], now[j]);
    if j < |now| - 1 {
      assert kept[j] < kept[|now| - 1];
    }
  }

  // ----- Trimming -----

  // The last removable item among the first n, or -1.
  function LastRemovableBelow(items: seq<ComposedItem>, n: nat): (r: int)
    requires n <= |items| && forall i :: n <= i < |items| ==> !Removable(items, i)
    ensures r >= 0 ==> LastRemovable(items, r)
    ensures r < 0 ==> r == -1 && forall i :: 0 <= i < |items| ==> !Removable(items, i)
  {
    if n == 0 then -1 else if Removable(items, n - 1) then n - 1 else LastRemovableBelow(items, n - 1)
  }

  // A session's items and the running total of their times.
  datatype Timed = Timed(items: seq<ComposedItem>, total: int)

  // Within the limit, down to two items, or with nothing left to cut or remove.
  predicate IsTrimEnough(t: Timed, limit: int) {
    t.total <= limit || |t.items| <= 2 || (!CanShorten(t.items) && LastRemovableBelow(t.items, |t.items|) < 0)
  }

  // One turn: cut the cooldown at the end, or else remove the last removable item.
  function TrimTurn(t: Timed): Timed
    requires t.items != [] && (CanShorten(t.items) || LastRemovableBelow(t.items, |t.items|) >= 0)
  {
    var items := t.items;
    if CanShorten(items) then
      Timed(ShortenedLast(items), t.total - (Seconds(items[|items| - 1]) - SHORT_COOLDOWN))
    else
      var r := LastRemovableBelow(items, |items|);
      Timed(Removed(items, r), t.total - Seconds(items[r]))
  }

  function Trim(t: Timed, limit: int): Timed
    decreases |t.items|, CanShorten(t.items)
  {
    if IsTrimEnough(t, limit) then t else Trim(TrimTurn(t), limit)
  }

  lemma {:induction false} TrimPreserves(t: Timed, limit: int, inv: Timed -> bool)
    requires inv(t)
    requires forall u: Timed :: inv(u) && !IsTrimEnough(u, limit) ==> inv(TrimTurn(u))
    ensures inv(Trim(t, limit)) && IsTrimEnough(Trim(t, limit), limit)
    decreases |t.items|, CanShorten(t.items)
  {
    if !IsTrimEnough(t, limit) {
      TrimPreserves(TrimTurn(t), limit, inv);
    }
  }

  lemma TurnKeepsInv(was: seq<ComposedItem>, k: nat, kept: seq<nat>, t: Timed, limit: int) returns (k': nat, kept': seq<nat>)
    requires TrimInv(was, k, kept, t.items, t.total, limit) && !IsTrimEnough(t, limit)
    ensures TrimInv(was, k', kept', TrimTurn(t).items, TrimTurn(t).total, limit)
  {
    if CanShorten(t.items) {
      TrimInvShorten(was, k, kept, t.items, t.total, limit);
      k', kept' := k, kept;
    } else {
      var r := LastRemovableBelow(t.items, |t.items|);
      TrimInvRemove(was, k, kept, t.items, r, t.total, limit);
      k', kept' := k + 1, Without(kept, r);
    }
  }

  // What trimming leaves: the last k removable items are gone, the survivors are in order and
  // numbered anew, and where only the last item was a cooldown, no more was removed than had to be.
  lemma TrimRemovesLast(t: Timed, limit: int) returns (k: nat, kept: seq<nat>)
    ensures TrimInv(t.items, k, kept, Trim(t, limit).items, Trim(t, limit).total, limit)
  {
    var inv := (u: Timed) => exists k, kept :: TrimInv(t.items, k, kept, u.items, u.total, limit);
    var all := NothingTrimmed(t.items);
    assert TrimInv(t.items, 0, all, t.items, t.total, limit);
    forall u: Timed | inv(u) && !IsTrimEnough(u, limit)
      ensures inv(TrimTurn(u))
    {
      var k, kept :| TrimInv(t.items, k, kept, u.items, u.total, limit);
      var k', kept' := TurnKeepsInv(t.items, k, kept, u, limit);
    }
    TrimPreserves(t, limit, inv);
    k, kept :| TrimInv(t.items, k, kept, Trim(t, limit).items, Trim(t, limit).total, limit);
  }

  // Trimming gets within the limit unless there is nothing left to remove, and moves the total
  // by exactly what the items lose.
  lemma TrimFits(t: Timed, limit: int)
    ensures var u := Trim(t, limit);
      && (u.total <= limit || |u.items| <= 2 || forall i :: 1 <= i < |u.items| ==> u.items[i].role == Warmup)
      && u.total - TotalTime(u.items) == t.total - TotalTime(t.items)
  {
    var inv := (u: Timed) => u.total - TotalTime(u.items) == t.total - TotalTime(t.items);
    forall u: Timed | inv(u) && !IsTrimEnough(u, limit)
      ensures inv(TrimTurn(u))
    {
      if CanShorten(u.items) {
        TimeShortened(u.items);
      } else {
        TimeRemoved(u.items, LastRemovableBelow(u.items, |u.items|), |u.items|);
      }
    }
    TrimPreserves(t, limit, inv);
    var items := Trim(t, limit).items;
    forall i | 1 <= i < |items| && !Removable(items, i)
      ensures items[i].role == Warmup
    {
    }
  }
}
