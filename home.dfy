/**
  The hero section's typing effect.  A timer types the current role one
  character at a time, holds the complete role for 1200 ms, deletes it
  one character at a time and moves on to the next role, cyclically.
  Exactly one timer is pending at any moment: the typing timer (60 ms
  while typing, 40 ms while deleting) or, once a role is complete, the
  hold timer; while the hold timer runs no typing timer is armed,
  because the tick that armed it changed no state.

  The state machine is stated for any list of roles; the component uses
  `Roles`.
 */
module Home {

  const Roles: seq<string> := ["Fullstack Engineer", "UITian", "AI Enthusiast"]

  const TypeDelayMs: nat := 60
  const DeleteDelayMs: nat := 40
  const HoldDelayMs: nat := 1200

  /** `holding` is true while the 1200 ms hold timer is pending. */
  datatype Typist = Typist(index: nat, subIndex: nat, deleting: bool, holding: bool)

  const Start := Typist(0, 0, false, false)

  /** The empty text of role `i`, about to be typed. */
  function Empty(i: nat): Typist {
    Typist(i, 0, false, false)
  }

  function RoleLength(roles: seq<string>, s: Typist): nat
    requires s.index < |roles|
  {
    |roles[s.index]|
  }

  /** The state invariant of the effect. */
  predicate Valid(roles: seq<string>, s: Typist) {
    && s.index < |roles|
    && s.subIndex <= RoleLength(roles, s)
    && (s.holding ==> !s.deleting && s.subIndex == RoleLength(roles, s))
  }

  /** The typing timer fires: type, start the hold, delete, or move on.
      A state matched by none of the four branches is left as it is. */
  function Tick(roles: seq<string>, s: Typist): Typist {
    if s.holding || s.index >= |roles| then s
    else if !s.deleting && s.subIndex < RoleLength(roles, s) then s.(subIndex := s.subIndex + 1)
    else if !s.deleting && s.subIndex == RoleLength(roles, s) then s.(holding := true)
    else if s.deleting && s.subIndex > 0 then s.(subIndex := s.subIndex - 1)
    else if s.deleting && s.subIndex == 0 then s.(deleting := false, index := (s.index + 1) % |roles|)
    else s
  }

  /** The hold timer fires: deletion starts. */
  function ReleaseHold(s: Typist): Typist {
    if s.holding then s.(holding := false, deleting := true) else s
  }

  /** Whichever timer is pending fires. */
  function Advance(roles: seq<string>, s: Typist): Typist {
    if s.holding then ReleaseHold(s) else Tick(roles, s)
  }

  /** How long the pending timer waits. */
  function DelayMs(s: Typist): nat {
    if s.holding then HoldDelayMs else if s.deleting then DeleteDelayMs else TypeDelayMs
  }

  /** The text on screen: the first `subIndex` characters of the role. */
  function Shown(roles: seq<string>, s: Typist): (text: string)
    requires Valid(roles, s)
    ensures |text| == s.subIndex && text <= roles[s.index]
  {
    roles[s.index][..s.subIndex]
  }

  /** Under the invariant exactly one of the four branches of a tick
      applies, and each changes what it should and nothing else. */
  lemma TickBranches(roles: seq<string>, s: Typist)
    requires Valid(roles, s) && !s.holding
    ensures !s.deleting && s.subIndex < RoleLength(roles, s) ==>
      Tick(roles, s) == Typist(s.index, s.subIndex + 1, false, false)
    ensures !s.deleting && s.subIndex == RoleLength(roles, s) ==>
      Tick(roles, s) == Typist(s.index, s.subIndex, false, true)
    ensures s.deleting && s.subIndex > 0 ==>
      Tick(roles, s) == Typist(s.index, s.subIndex - 1, true, false)
    ensures s.deleting && s.subIndex == 0 ==>
      Tick(roles, s) == Empty((s.index + 1) % |roles|)
    ensures Tick(roles, s) != s
  {
  }

  /** A complete role is held: the tick arms the 1200 ms hold timer and
      changes nothing else, and when the hold timer fires deletion
      starts, with the text still complete. */
  lemma HoldThenDelete(roles: seq<string>, s: Typist)
    requires Valid(roles, s) && !s.holding && !s.deleting && s.subIndex == RoleLength(roles, s)
    ensures Tick(roles, s) == s.(holding := true)
    ensures DelayMs(Tick(roles, s)) == HoldDelayMs
    ensures Advance(roles, Advance(roles, s)) == s.(deleting := true)
  {
  }

  /** Every timer firing keeps the invariant. */
  lemma AdvanceKeepsValid(roles: seq<string>, s: Typist)
    requires Valid(roles, s)
    ensures Valid(roles, Advance(roles, s))
  {
  }

  /** `k` consecutive timer firings. */
  function AdvanceN(roles: seq<string>, s: Typist, k: nat): Typist
    decreases k
  {
    if k == 0 then s else AdvanceN(roles, Advance(roles, s), k - 1)
  }

  /** The time those `k` firings take, in milliseconds. */
  function ElapsedMs(roles: seq<string>, s: Typist, k: nat): nat
    decreases k
  {
    if k == 0 then 0 else DelayMs(s) + ElapsedMs(roles, Advance(roles, s), k - 1)
  }

  lemma {:induction false} AdvanceNValid(roles: seq<string>, s: Typist, k: nat)
    requires Valid(roles, s)
    ensures Valid(roles, AdvanceN(roles, s, k))
    decreases k
  {
    if k > 0 {
      AdvanceKeepsValid(roles, s);
      AdvanceNValid(roles, Advance(roles, s), k - 1);
    }
  }

  /** Running `a` firings and then `b` more is running `a + b`. */
  lemma {:induction false} AdvanceNSplit(roles: seq<string>, s: Typist, a: nat, b: nat)
    ensures AdvanceN(roles, s, a + b) == AdvanceN(roles, AdvanceN(roles, s, a), b)
    ensures ElapsedMs(roles, s, a + b) == ElapsedMs(roles, s, a) + ElapsedMs(roles, AdvanceN(roles, s, a), b)
    decreases a
  {
    if a > 0 {
      AdvanceNSplit(roles, Advance(roles, s), a - 1, b);
    }
  }

  /** Typing from `j` characters completes the role in 60 ms per character. */
  lemma {:induction false} TypesOut(roles: seq<string>, i: nat, j: nat)
    requires i < |roles| && j <= |roles[i]|
    ensures AdvanceN(roles, Typist(i, j, false, false), |roles[i]| - j) == Typist(i, |roles[i]|, false, false)
    ensures ElapsedMs(roles, Typist(i, j, false, false), |roles[i]| - j) == TypeDelayMs * (|roles[i]| - j)
    decreases |roles[i]| - j
  {
    if j < |roles[i]| {
      TypesOut(roles, i, j + 1);
    }
  }

  /** Deleting from `j` characters empties the text in 40 ms per character. */
  lemma {:induction false} DeletesOut(roles: seq<string>, i: nat, j: nat)
    requires i < |roles| && j <= |roles[i]|
    ensures AdvanceN(roles, Typist(i, j, true, false), j) == Typist(i, 0, true, false)
    ensures ElapsedMs(roles, Typist(i, j, true, false), j) == DeleteDelayMs * j
    decreases j
  {
    if j > 0 {
      DeletesOut(roles, i, j - 1);
    }
  }

  /** The number of timer firings, and the time, one role takes. */
  function CycleSteps(roles: seq<string>, i: nat): nat
    requires i < |roles|
  {
    2 * |roles[i]| + 3
  }

  function CycleMs(roles: seq<string>, i: nat): nat
    requires i < |roles|
  {
    100 * |roles[i]| + 1300
  }

  /** One full cycle: starting from an empty role `i`, after 2*L + 3 timer
      firings (L typing ticks, the tick that starts the hold, the hold,
      L deleting ticks, the wrapping tick) the effect shows the empty
      next role, having taken 100*L + 1300 ms. */
  lemma RoleCycle(roles: seq<string>, i: nat)
    requires i < |roles|
    ensures AdvanceN(roles, Empty(i), CycleSteps(roles, i)) == Empty((i + 1) % |roles|)
    ensures ElapsedMs(roles, Empty(i), CycleSteps(roles, i)) == CycleMs(roles, i)
  {
    var L := |roles[i]|;
    var s0 := Empty(i);
    var full := Typist(i, L, false, false);
    var deleting := Typist(i, L, true, false);
    var empty := Typist(i, 0, true, false);
    TypesOut(roles, i, 0);
    assert AdvanceN(roles, full, 2) == deleting && ElapsedMs(roles, full, 2) == TypeDelayMs + HoldDelayMs by {
      assert Advance(roles, full) == Typist(i, L, false, true);
    }
    AdvanceNSplit(roles, s0, L, 2);
    DeletesOut(roles, i, L);
    AdvanceNSplit(roles, s0, L + 2, L);
    assert AdvanceN(roles, empty, 1) == Empty((i + 1) % |roles|);
    assert ElapsedMs(roles, empty, 1) == DeleteDelayMs;
    AdvanceNSplit(roles, s0, 2 * L + 2, 1);
  }

  /** The role that follows role `i` (the last role is followed by the first). */
  lemma NextRole(i: nat, n: nat)
    requires i < n
    ensures (i + 1) % n == if i + 1 < n then i + 1 else 0
  {
  }

  /** The role `m` cycles after role `i`. */
  function RoleAfter(roles: seq<string>, i: nat, m: nat): (r: nat)
    requires i < |roles|
    ensures r < |roles|
  {
    if m == 0 then i else (RoleAfter(roles, i, m - 1) + 1) % |roles|
  }

  /** The firings, and the time, of the `m` role cycles that start at role `i`. */
  function StepsFrom(roles: seq<string>, i: nat, m: nat): nat
    requires i < |roles|
  {
    if m == 0 then 0 else StepsFrom(roles, i, m - 1) + CycleSteps(roles, RoleAfter(roles, i, m - 1))
  }

  function MsFrom(roles: seq<string>, i: nat, m: nat): nat
    requires i < |roles|
  {
    if m == 0 then 0 else MsFrom(roles, i, m - 1) + CycleMs(roles, RoleAfter(roles, i, m - 1))
  }

  /** Up to one round, the role `m` cycles on is `i + m`, wrapped once. */
  lemma {:induction false} RoleAfterWraps(roles: seq<string>, i: nat, m: nat)
    requires i < |roles| && m <= |roles|
    ensures RoleAfter(roles, i, m) == if i + m < |roles| then i + m else i + m - |roles|
  {
    if m > 0 {
      RoleAfterWraps(roles, i, m - 1);
      NextRole(RoleAfter(roles, i, m - 1), |roles|);
    }
  }

  /** After `m` role cycles from the empty role `i` the effect shows the
      empty role `m` cycles on, having taken the `m` cycles' time. */
  lemma {:induction false} Rounds(roles: seq<string>, i: nat, m: nat)
    requires i < |roles|
    ensures AdvanceN(roles, Empty(i), StepsFrom(roles, i, m)) == Empty(RoleAfter(roles, i, m))
    ensures ElapsedMs(roles, Empty(i), StepsFrom(roles, i, m)) == MsFrom(roles, i, m)
  {
    if m > 0 {
      var j := RoleAfter(roles, i, m - 1);
      Rounds(roles, i, m - 1);
      RoleCycle(roles, j);
      AdvanceNSplit(roles, Empty(i), StepsFrom(roles, i, m - 1), CycleSteps(roles, j));
    }
  }

  /** The effect is periodic: from any role, one cycle of every role
      brings it back to where it started. */
  lemma Periodic(roles: seq<string>, i: nat)
    requires i < |roles|
    ensures AdvanceN(roles, Empty(i), StepsFrom(roles, i, |roles|)) == Empty(i)
    ensures ElapsedMs(roles, Empty(i), StepsFrom(roles, i, |roles|)) == MsFrom(roles, i, |roles|)
  {
    Rounds(roles, i, |roles|);
    RoleAfterWraps(roles, i, |roles|);
  }

  /** With the three roles listed, the period is 83 firings and 7.6 s. */
  lemma PeriodOfListedRoles()
    ensures StepsFrom(Roles, 0, |Roles|) == 83
    ensures MsFrom(Roles, 0, |Roles|) == 7600
  {
  }

  /** The effect mounted in the hero section. */
  class TypingEffect {
    var index: nat
    var subIndex: nat
    var deleting: bool
    var holding: bool

    function State(): Typist
      reads this
    {
      Typist(index, subIndex, deleting, holding)
    }

    constructor ()
      ensures State() == Start && Valid(Roles, State())
    {
      index, subIndex, deleting, holding := 0, 0, false, false;
    }

    /** The typing timer's callback. */
    method OnTypingTimer()
      requires Valid(Roles, State()) && !holding
      modifies this
      ensures State() == Tick(Roles, old(State())) && Valid(Roles, State())
    {
      var current := Roles[index];
      if !deleting && subIndex < |current| {
        subIndex := subIndex + 1;
      } else if !deleting && subIndex == |current| {
        holding := true;
      } else if deleting && subIndex > 0 {
        subIndex := subIndex - 1;
      } else if deleting && subIndex == 0 {
        deleting := false;
        index := (index + 1) % |Roles|;
      }
    }

    /** The hold timer's callback. */
    method OnHoldTimer()
      requires Valid(Roles, State()) && holding
      modifies this
      ensures State() == ReleaseHold(old(State())) && Valid(Roles, State())
    {
      holding := false;
      deleting := true;
    }

    /** The delay the effect arms the next typing timer with. */
    method TypingDelay() returns (ms: nat)
      ensures deleting ==> ms == 40
      ensures !deleting ==> ms == 60
      ensures !holding ==> ms == DelayMs(State())
    {
      ms := if deleting then DeleteDelayMs else TypeDelayMs;
    }

    /** The text rendered: a prefix of the current role of length `subIndex`. */
    method Displayed() returns (text: string)
      requires Valid(Roles, State())
      ensures text <= Roles[index] && |text| == subIndex
    {
      text := Shown(Roles, State());
    }
  }
}
