/**
 The arc of a session: which role each position plays.

 The builders fill an array of slots with a moving index. They are proved to produce the
 layouts of `Layout`, and the layouts are proved to have the promised length and shape.
 */
module SessionTemplate {
  import opened Content

  datatype Slot = Slot(role: Role, maxDifficulty: real, minDifficulty: real)

  function SlotOf(role: Role): Slot {
    match role
    case Warmup => Slot(Warmup, 0.3, 0.0)
    case Ramp => Slot(Ramp, 0.6, 0.3)
    case Core => Slot(Core, 0.8, 0.3)
    case Relief => Slot(Relief, 0.4, 0.0)
    case Challenge => Slot(Challenge, 1.0, 0.7)
    case Cooldown => Slot(Cooldown, 0.3, 0.0)
    case NoRole => Slot(NoRole, 0.0, 0.0)
  }

  // How many positions each stretch of the arc takes, in order.
  datatype Layout = Layout(
    warmup: nat, ramp: nat, core1: nat, relief1: nat, core2: nat, relief2: nat, challenge: nat, cooldown: nat)
  {
    function Length(): nat {
      warmup + ramp + core1 + relief1 + core2 + relief2 + challenge + cooldown
    }
  }

  // The role at position i of a layout.
  function RoleAt(l: Layout, i: nat): Role {
    if i < l.warmup then Warmup
    else if i < l.warmup + l.ramp then Ramp
    else if i < l.warmup + l.ramp + l.core1 then Core
    else if i < l.warmup + l.ramp + l.core1 + l.relief1 then Relief
    else if i < l.warmup + l.ramp + l.core1 + l.relief1 + l.core2 then Core
    else if i < l.warmup + l.ramp + l.core1 + l.relief1 + l.core2 + l.relief2 then Relief
    else if i < l.warmup + l.ramp + l.core1 + l.relief1 + l.core2 + l.relief2 + l.challenge then Challenge
    else Cooldown
  }

  ghost predicate Follows(slots: seq<Slot>, l: Layout) {
    |slots| == l.Length() && forall i :: 0 <= i < |slots| ==> slots[i] == SlotOf(RoleAt(l, i))
  }

  // One warmup, one cooldown, and core in between.
  function ShortLayout(n: nat): Layout {
    if n <= 1 then Layout(n, 0, 0, 0, 0, 0, 0, 0) else Layout(1, 0, n - 2, 0, 0, 0, 0, 1)
  }

  // Two or three warmups, one or two ramps, core halved around one relief, and a cooldown.
  // Sessions of four and of six items run out of positions before the cooldown.
  function StandardLayout(n: nat): Layout {
    if n <= 3 then ShortLayout(n)
    else if n == 4 then Layout(2, 1, 1, 0, 0, 0, 0, 0)
    else if n == 5 then Layout(2, 1, 1, 0, 0, 0, 0, 1)
    else if n == 6 then Layout(2, 1, 1, 1, 1, 0, 0, 0)
    else
      var warmup := if n >= 15 then 3 else 2;
      var ramp := if n >= 12 then 2 else 1;
      var core := n - warmup - ramp - 2;
      Layout(warmup, ramp, core / 2, 1, core - core / 2, 0, 0, 1)
  }

  // Two warmups and ramps, core halved around a relief; from ten items on also a second
  // relief and a challenge. Sessions of six and seven items run out before the cooldown.
  function IntensiveLayout(n: nat): Layout {
    if n <= 5 then StandardLayout(n)
    else if n == 6 then Layout(2, 2, 1, 0, 1, 0, 0, 0)
    else if n == 7 then Layout(2, 2, 1, 1, 1, 0, 0, 0)
    else if n <= 9 then Layout(2, 2, (n - 6) / 2, 1, (n - 6) - (n - 6) / 2, 0, 0, 1)
    else Layout(2, 2, (n - 8) / 2, 1, (n - 8) - (n - 8) / 2, 1, 1, 1)
  }

  datatype Mode = Short | Standard | Intensive

  function ModeOf(segment: string, budgetMinutes: int): Mode {
    if segment == "migrant" || budgetMinutes <= 5 then Short
    else if (segment == "uni_prep" && budgetMinutes >= 25) || budgetMinutes >= 30 then Intensive
    else Standard
  }

  // Every template has one slot per item and opens with a warmup; it closes with a cooldown
  // except at these sizes.
  function LayoutFor(mode: Mode, n: nat): (l: Layout)
    requires n >= 1
    ensures l.Length() == n && RoleAt(l, 0) == Warmup
    ensures RoleAt(l, n - 1) == Cooldown <==>
              && n != 1
              && (mode == Standard ==> n != 4 && n != 6)
              && (mode == Intensive ==> n != 4 && n != 6 && n != 7)
  {
    match mode
    case Short => ShortLayout(n)
    case Standard => StandardLayout(n)
    case Intensive => IntensiveLayout(n)
  }

  // What segment and budget decide, by the roles of a session of ten items or more: migrants
  // and budgets of up to five minutes get one warmup only; half an hour, or 25 minutes before
  // university, gets a challenge near the end.
  lemma ModesTell(segment: string, budgetMinutes: int, n: nat)
    requires n >= 10
    ensures var l := LayoutFor(ModeOf(segment, budgetMinutes), n);
      && (RoleAt(l, 1) == Core <==> segment == "migrant" || budgetMinutes <= 5)
      && (RoleAt(l, n - 2) == Challenge <==>
            segment != "migrant" && budgetMinutes > 5 && (budgetMinutes >= 30 || (segment == "uni_prep" && budgetMinutes >= 25)))
  {
  }

  // The small sessions, stretch by stretch.
  lemma SmallSessions(mode: Mode, n: nat, l: Layout)
    requires 1 <= n <= 9 && l == LayoutFor(mode, n)
    ensures n == 1 ==> l == Layout(1, 0, 0, 0, 0, 0, 0, 0)
    ensures n > 1 && (mode == Short || n <= 3) ==> l == Layout(1, 0, n - 2, 0, 0, 0, 0, 1)
    ensures n == 4 && mode != Short ==> l == Layout(2, 1, 1, 0, 0, 0, 0, 0)
    ensures n == 5 && mode != Short ==> l == Layout(2, 1, 1, 0, 0, 0, 0, 1)
    ensures mode == Standard ==>
              && (n == 6 ==> l == Layout(2, 1, 1, 1, 1, 0, 0, 0))
              && (n == 7 ==> l == Layout(2, 1, 1, 1, 1, 0, 0, 1))
              && (n == 8 ==> l == Layout(2, 1, 1, 1, 2, 0, 0, 1))
              && (n == 9 ==> l == Layout(2, 1, 2, 1, 2, 0, 0, 1))
    ensures mode == Intensive ==>
              && (n == 6 ==> l == Layout(2, 2, 1, 0, 1, 0, 0, 0))
              && (n == 7 ==> l == Layout(2, 2, 1, 1, 1, 0, 0, 0))
              && (n == 8 ==> l == Layout(2, 2, 1, 1, 1, 0, 0, 1))
              && (n == 9 ==> l == Layout(2, 2, 1, 1, 2, 0, 0, 1))
  {
  }

  // The stretches of the larger ones: core in two halves, the second one longer by one at most.
  lemma LargeSessions(n: nat)
    requires n >= 10
    ensures var l := LayoutFor(Short, n); l == Layout(1, 0, n - 2, 0, 0, 0, 0, 1)
    ensures var l := LayoutFor(Standard, n);
      && l.warmup == (if n < 15 then 2 else 3) && l.ramp == (if n < 12 then 1 else 2)
      && l.core1 <= l.core2 <= l.core1 + 1 && l.relief1 == l.cooldown == 1 && l.relief2 == l.challenge == 0
    ensures var l := LayoutFor(Intensive, n);
      && l.warmup == l.ramp == 2 && l.core1 <= l.core2 <= l.core1 + 1
      && l.relief1 == l.relief2 == l.challenge == l.cooldown == 1
  {
  }

  // The documented arcs have three to five items in either half of a standard session's core,
  // and five to seven in those of an intensive one. These are the sizes that meet them.
  lemma DocumentedArcsIff(n: nat)
    requires n >= 10
    ensures var l := LayoutFor(Standard, n); 3 <= l.core1 <= 5 && 3 <= l.core2 <= 5 <==> 11 <= n <= 17
    ensures var l := LayoutFor(Intensive, n); 5 <= l.core1 <= 7 && 5 <= l.core2 <= 7 <==> 18 <= n <= 22
  {
  }

  // The difficulties a slot is meant for.
  lemma SlotsAreMeantFor(role: Role, d: real)
    requires role != NoRole
    ensures SlotOf(role).role == role
    ensures SlotOf(role).minDifficulty <= d <= SlotOf(role).maxDifficulty <==>
              || (role in {Warmup, Cooldown} && 0.0 <= d <= 0.3)
              || (role == Relief && 0.0 <= d <= 0.4)
              || (role == Ramp && 0.3 <= d <= 0.6)
              || (role == Core && 0.3 <= d <= 0.8)
              || (role == Challenge && 0.7 <= d <= 1.0)
  {
  }

  // ----- The builders -----

  // The first idx slots are those of the layout.
  ghost predicate FilledUpTo(slots: array<Slot>, l: Layout, idx: nat)
    reads slots
  {
    idx <= slots.Length && forall k :: 0 <= k < idx ==> slots[k] == SlotOf(RoleAt(l, k))
  }

  // The positions from idx on, up to `count` of them and short of n, have this role.
  ghost predicate IsStretch(l: Layout, idx: nat, count: nat, n: nat, role: Role) {
    forall k :: idx <= k < idx + count && k < n ==> RoleAt(l, k) == role
  }

  lemma Stretches(l: Layout, n: nat)
    ensures IsStretch(l, 0, l.warmup, n, Warmup)
    ensures IsStretch(l, l.warmup, l.ramp, n, Ramp)
    ensures var i := l.warmup + l.ramp; IsStretch(l, i, l.core1, n, Core) && IsStretch(l, i + l.core1, l.relief1, n, Relief)
    ensures var i := l.warmup + l.ramp + l.core1 + l.relief1;
      && IsStretch(l, i, l.core2, n, Core)
      && IsStretch(l, i + l.core2, l.relief2, n, Relief)
      && IsStretch(l, i + l.core2 + l.relief2, l.challenge, n, Challenge)
      && IsStretch(l, i + l.core2 + l.relief2 + l.challenge, l.cooldown, n, Cooldown)
  {
  }

  // A fill loop: up to `count` slots of one role from idx on, while there is room.
  method Fill(slots: array<Slot>, idx: nat, count: nat, role: Role, ghost l: Layout) returns (idx': nat)
    requires FilledUpTo(slots, l, idx)
    requires IsStretch(l, idx, count, slots.Length, role)
    modifies slots
    ensures idx' == if idx + count <= slots.Length then idx + count else slots.Length
    ensures FilledUpTo(slots, l, idx')
    ensures forall k :: idx' <= k < slots.Length ==> slots[k] == old(slots[k])
  {
    idx' := idx;
    var i := 0;
    while i < count && idx' < slots.Length
      invariant i <= count && idx' == idx + i <= slots.Length
      invariant FilledUpTo(slots, l, idx')
      invariant forall k :: idx' <= k < slots.Length ==> slots[k] == old(slots[k])
    {
      slots[idx'] := SlotOf(role);
      idx' := idx' + 1;
      i := i + 1;
    }
  }

  method BuildShortTemplate(n: nat) returns (template: seq<Slot>)
    requires n >= 1
    ensures Follows(template, ShortLayout(n))
  {
    var slots := new Slot[n](_ => SlotOf(NoRole));
    slots[0] := SlotOf(Warmup);
    if n > 1 {
      var idx := Fill(slots, 1, n - 2, Core, ShortLayout(n));
      slots[n - 1] := SlotOf(Cooldown);
    }
    template := slots[..];
  }

  method BuildStandardTemplate(n: nat) returns (template: seq<Slot>)
    requires n >= 1
    ensures Follows(template, StandardLayout(n))
  {
    if n <= 3 {
      var slots := new Slot[n](_ => SlotOf(NoRole));
      slots[0] := SlotOf(Warmup);
      if n > 1 {
        var core := Fill(slots, 1, n - 2, Core, StandardLayout(n));
        slots[n - 1] := SlotOf(Cooldown);
      }
      return slots[..];
    }
    template := BuildStandardArc(n);
  }

  // The rest of the standard builder.
  method BuildStandardArc(n: nat) returns (template: seq<Slot>)
    requires n > 3
    ensures Follows(template, StandardLayout(n))
  {
    var slots := new Slot[n](_ => SlotOf(NoRole));
    ghost var l := StandardLayout(n);
    Stretches(l, n);
    var warmupCount := if n >= 15 then 3 else 2;
    var idx := Fill(slots, 0, warmupCount, Warmup, l);
    var rampCount := if n >= 12 then 2 else 1;
    idx := Fill(slots, idx, rampCount, Ramp, l);
    idx := CloseStandard(slots, n, idx);
    template := slots[..idx];
  }

  // The core blocks of a standard session and what is around them.
  method CloseStandard(slots: array<Slot>, n: nat, idx: nat) returns (end: nat)
    requires n > 3 && slots.Length == n && idx == StandardLayout(n).warmup + StandardLayout(n).ramp
    requires FilledUpTo(slots, StandardLayout(n), idx)
    modifies slots
    ensures end == n && FilledUpTo(slots, StandardLayout(n), n)
  {
    ghost var l := StandardLayout(n);
    Stretches(l, n);
    var remaining := n - idx;
    var core1Count, core2Count := SplitStandardCore(n, remaining);
    end := Fill(slots, idx, core1Count, Core, l);
    if end < n - 1 && remaining > 2 {
      end := Fill(slots, end, 1, Relief, l);
    }
    end := Fill(slots, end, core2Count, Core, l);
    if end < n {
      end := Fill(slots, end, 1, Cooldown, l);
    }
  }

  // The two core blocks of a standard session, from what warmup and ramp leave.
  method SplitStandardCore(ghost n: nat, remaining: nat) returns (core1Count: nat, core2Count: nat)
    requires n > 3 && remaining == n - StandardLayout(n).warmup - StandardLayout(n).ramp
    ensures core1Count == StandardLayout(n).core1 && core2Count == StandardLayout(n).core2
  {
    var coreTotal := remaining - 2;
    if coreTotal < 2 {
      coreTotal := remaining - 1;
      if coreTotal < 1 {
        coreTotal := 1;
      }
    }
    core1Count := coreTotal / 2;
    if core1Count < 1 {
      core1Count := 1;
    }
    core2Count := coreTotal - core1Count;
  }

  // The reserve for special items and the two core blocks of an intensive session.
  method SplitIntensiveCore(ghost n: nat, remaining: nat) returns (specialCount: nat, core1Count: nat, core2Count: nat)
    requires n > 5 && remaining == n - 4
    ensures core1Count == IntensiveLayout(n).core1 && core2Count == IntensiveLayout(n).core2
    ensures specialCount == if n < 10 then 2 else 4
  {
    specialCount := 4;
    if remaining < specialCount + 2 {
      specialCount := 2;
    }
    var coreTotal := remaining - specialCount;
    if coreTotal < 2 {
      coreTotal := 2;
    }
    core1Count := coreTotal / 2;
    core2Count := coreTotal - core1Count;
  }

  method BuildIntensiveTemplate(n: nat) returns (template: seq<Slot>)
    requires n >= 1
    ensures Follows(template, IntensiveLayout(n))
  {
    if n <= 5 {
      template := BuildStandardTemplate(n);
      return;
    }
    var slots := new Slot[n](_ => SlotOf(NoRole));
    ghost var l := IntensiveLayout(n);
    Stretches(l, n);
    var idx := Fill(slots, 0, 2, Warmup, l);
    idx := Fill(slots, idx, 2, Ramp, l);
    var specialCount, core1Count, core2Count := SplitIntensiveCore(n, n - idx);
    idx := Fill(slots, idx, core1Count, Core, l);
    if idx < n - 1 {
      idx := Fill(slots, idx, 1, Relief, l);
    }
    idx := Fill(slots, idx, core2Count, Core, l);
    idx := CloseIntensive(slots, n, idx, specialCount);
    template := slots[..idx];
  }

  // The special items behind the second core block of an intensive session.
  method CloseIntensive(slots: array<Slot>, n: nat, idx: nat, specialCount: nat) returns (end: nat)
    requires n > 5 && slots.Length == n && specialCount == (if n < 10 then 2 else 4)
    requires var l := IntensiveLayout(n); idx == l.warmup + l.ramp + l.core1 + l.relief1 + l.core2
    requires FilledUpTo(slots, IntensiveLayout(n), idx)
    modifies slots
    ensures end == n && FilledUpTo(slots, IntensiveLayout(n), n)
  {
    ghost var l := IntensiveLayout(n);
    Stretches(l, n);
    end := idx;
    if specialCount >= 4 && end < n - 2 {
      end := Fill(slots, end, 1, Relief, l);
    }
    if specialCount >= 3 && end < n - 1 {
      end := Fill(slots, end, 1, Challenge, l);
    }
    if end < n {
      end := Fill(slots, end, 1, Cooldown, l);
    }
  }

  method BuildTemplate(n: nat, segment: string, budgetMinutes: int) returns (template: seq<Slot>)
    requires n >= 1
    ensures Follows(template, LayoutFor(ModeOf(segment, budgetMinutes), n))
  {
    if segment == "migrant" || budgetMinutes <= 5 {
      template := BuildShortTemplate(n);
    } else if (segment == "uni_prep" && budgetMinutes >= 25) || budgetMinutes >= 30 {
      template := BuildIntensiveTemplate(n);
    } else {
      template := BuildStandardTemplate(n);
    }
  }
}
