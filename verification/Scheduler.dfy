/** The cron scheduler: always fire the earliest due trigger, then move it to its next slot. */
module Scheduler {

  datatype Armed = Armed(id: string, nextFire: int)

  /** One fire with the clock readings around it: the due check, the start, and the one the next
      slot is computed from. */
  datatype Fire = Fire(index: nat, scheduledFor: int, checkedAt: int, startedAt: int, after: int)

  /** `next(id, t)` is the trigger's cron schedule. */
  type Schedule = (string, int) -> int

  /** The schedule answers the least slot strictly after the time asked about. */
  ghost predicate LeastSlot(next: Schedule) {
    forall id, a :: next(id, a) > a && forall b :: a <= b < next(id, a) ==> next(id, b) == next(id, a)
  }

  ghost predicate IsSlot(next: Schedule, id: string, s: int) {
    next(id, s - 1) == s
  }

  /** How many slots of the trigger lie in [lo, hi]. */
  ghost function SlotsIn(next: Schedule, id: string, lo: int, hi: int): nat
    decreases if hi < lo then 0 else hi - lo + 1
  {
    if hi < lo then 0 else SlotsIn(next, id, lo, hi - 1) + if IsSlot(next, id, hi) then 1 else 0
  }

  /** Every trigger waits for one of its slots. */
  ghost predicate OnSlots(armed: seq<Armed>, next: Schedule) {
    forall i :: 0 <= i < |armed| ==> IsSlot(next, armed[i].id, armed[i].nextFire)
  }

  /** A clock that never goes back. */
  ghost predicate Forward(clock: nat -> int) {
    forall i: nat, j: nat :: i <= j ==> clock(i) <= clock(j)
  }

  /** The first of the entries with the smallest `nextFire`. */
  function Earliest(armed: seq<Armed>): (m: nat)
    requires armed != []
    ensures m < |armed|
    ensures forall i :: 0 <= i < |armed| ==> armed[m].nextFire <= armed[i].nextFire
    ensures forall i :: 0 <= i < m ==> armed[m].nextFire < armed[i].nextFire
  {
    var n := |armed| - 1;
    if n == 0 then 0
    else
      var m := Earliest(armed[..n]);
      assert forall i :: 0 <= i < n ==> armed[..n][i] == armed[i];
      if armed[n].nextFire < armed[m].nextFire then n else m
  }

  function Moved(armed: seq<Armed>, f: Fire, next: Schedule): seq<Armed>
    requires f.index < |armed|
  {
    armed[f.index := armed[f.index].(nextFire := next(armed[f.index].id, f.after))]
  }

  predicate InRange(n: nat, fires: seq<Fire>) {
    forall k :: 0 <= k < |fires| ==> fires[k].index < n
  }

  /** The armed list after some fires. */
  function After(armed: seq<Armed>, fires: seq<Fire>, next: Schedule): (a: seq<Armed>)
    requires InRange(|armed|, fires)
    ensures |a| == |armed|
  {
    if fires == [] then armed
    else Moved(After(armed, fires[..|fires| - 1], next), fires[|fires| - 1], next)
  }

  /** `f` is the fire the loop performs on `armed`, with clock readings that do not go back. */
  predicate FiresNow(armed: seq<Armed>, f: Fire, since: int) {
    && armed != [] && f.index == Earliest(armed)
    && f.scheduledFor == armed[f.index].nextFire
    && f.scheduledFor <= f.checkedAt
    && since <= f.checkedAt <= f.startedAt <= f.after
  }

  predicate Legal(armed: seq<Armed>, fires: seq<Fire>, next: Schedule, since: int) {
    InRange(|armed|, fires) &&
    (fires == [] ||
      var front, f := fires[..|fires| - 1], fires[|fires| - 1];
      && Legal(armed, front, next, since)
      && FiresNow(After(armed, front, next), f, if front == [] then since else front[|front| - 1].after))
  }

  // ---------------------------------------------------------------- the code

  class Scheduler {
    const next: Schedule
    var armed: seq<Armed>
    ghost const initial: seq<Armed>
    ghost const born: int
    ghost var fires: seq<Fire>

    /** Every fire so far was due, earliest first, and the armed list is where they leave it. */
    ghost predicate Valid()
      reads this
    {
      && LeastSlot(next) && OnSlots(initial, next) && Legal(initial, fires, next, born)
      && armed == After(initial, fires, next)
    }

    constructor (ids: seq<string>, next: Schedule, now: int)
      requires LeastSlot(next)
      ensures Valid() && fires == [] && born == now && this.next == next
      ensures |armed| == |ids| && forall i :: 0 <= i < |ids| ==> armed[i] == Armed(ids[i], next(ids[i], now))
    {
      this.next := next;
      var a := seq(|ids|, i requires 0 <= i < |ids| => Armed(ids[i], next(ids[i], now)));
      forall i | 0 <= i < |a| ensures IsSlot(next, a[i].id, a[i].nextFire) { LeastAt(next, ids[i], now, now); }
      armed := a;
      initial := a;
      born := now;
      fires := [];
    }

    ghost function LastReading(): int
      reads this
    {
      if fires == [] then born else fires[|fires| - 1].after
    }

    /** Fire everything that is due. `clock(k)` is the k-th reading, and `completes(k)` says whether
        the callback of the k-th fire returns normally, which costs one more reading. */
    method Tick(clock: nat -> int, completes: nat -> bool, ghost bound: int) returns (fired: nat, readings: nat)
      requires Valid()
      requires Forward(clock)
      requires clock(0) >= LastReading()
      requires forall k: nat :: clock(k) <= bound
      modifies this
      ensures Valid() && |fires| == |old(fires)| + fired && old(fires) <= fires
      ensures armed != [] ==> readings > 0 && LastReading() <= clock(readings - 1)
      ensures armed != [] ==> forall i :: 0 <= i < |armed| ==> armed[i].nextFire > clock(readings - 1)
      ensures armed == [] ==> fired == 0
    {
      fired, readings := 0, 0;
      while armed != []
        invariant Valid() && |fires| == |old(fires)| + fired && old(fires) <= fires
        invariant |armed| == |old(armed)|
        invariant LastReading() <= clock(readings)
        invariant armed == [] ==> fired == 0
        decreases SlotsLeft(armed, next, bound)
      {
        var m := Earliest(armed);
        var now := clock(readings);
        readings := readings + 1;
        if armed[m].nextFire > now { return; }
        var startedAt := clock(readings);
        readings := if completes(fired) then readings + 2 else readings + 1;
        var after := clock(readings);
        readings := readings + 1;
        Perform(m, now, startedAt, after, bound);
        fired := fired + 1;
      }
    }

    /** Fire the earliest entry and move it to the first slot after the closing reading. */
    method Perform(m: nat, now: int, startedAt: int, after: int, ghost bound: int)
      requires Valid() && armed != [] && m == Earliest(armed)
      requires LastReading() <= now <= startedAt <= after <= bound && armed[m].nextFire <= now
      modifies this
      ensures Valid() && |armed| == |old(armed)| && LastReading() == after
      ensures fires == old(fires) + [Fire(m, old(armed)[m].nextFire, now, startedAt, after)]
      ensures SlotsLeft(armed, next, bound) < SlotsLeft(old(armed), next, bound)
    {
      ghost var f := Fire(m, armed[m].nextFire, now, startedAt, after);
      StaysOnSlots(initial, fires, next);
      SlotsShrink(armed, f, next, bound);
      LegalSnoc(initial, fires, f, next, born);
      armed := armed[m := armed[m].(nextFire := next(armed[m].id, after))];
      fires := fires + [f];
    }

    /** How long the background loop sleeps: at most a minute, and never past a due time. */
    method Delay(now: int) returns (seconds: int)
      requires armed != []
      ensures 0 <= seconds <= 60
      ensures seconds > 0 ==> forall i :: 0 <= i < |armed| ==> armed[i].nextFire >= now + seconds
      ensures seconds == 0 <==> exists i :: 0 <= i < |armed| && armed[i].nextFire <= now
    {
      var due := armed[Earliest(armed)].nextFire - now;
      seconds := if due < 0 then 0 else due;
      seconds := if seconds > 60 then 60 else seconds;
    }
  }

  // ---------------------------------------------------------------- slots

  lemma LeastAt(next: Schedule, id: string, a: int, s: int)
    requires LeastSlot(next)
    ensures next(id, a) > a && IsSlot(next, id, next(id, a))
    ensures a < s < next(id, a) ==> !IsSlot(next, id, s)
  {
    var b := next(id, a);
    assert next(id, b - 1) == b;
    if a < s < b { assert next(id, s - 1) == b; }
  }

  lemma {:induction false} SlotsSplit(next: Schedule, id: string, lo: int, mid: int, hi: int)
    requires lo <= mid <= hi + 1
    ensures SlotsIn(next, id, lo, hi) == SlotsIn(next, id, lo, mid - 1) + SlotsIn(next, id, mid, hi)
    decreases hi - mid + 1
  {
    if mid <= hi { SlotsSplit(next, id, lo, mid, hi - 1); }
  }

  lemma {:induction false} NoneBeforeNext(next: Schedule, id: string, a: int, hi: int)
    requires LeastSlot(next) && a <= hi < next(id, a)
    ensures SlotsIn(next, id, a + 1, hi) == 0
    decreases hi - a
  {
    if a < hi {
      NoneBeforeNext(next, id, a, hi - 1);
      LeastAt(next, id, a, hi);
    }
  }

  /** A fire uses up its own slot and those that pass until it is over. */
  lemma FireUses(next: Schedule, id: string, s: int, after: int, bound: int)
    requires LeastSlot(next) && IsSlot(next, id, s) && s <= after <= bound
    ensures SlotsIn(next, id, s, bound)
         == 1 + SlotsIn(next, id, s + 1, after) + SlotsIn(next, id, next(id, after), bound)
  {
    var n := next(id, after);
    LeastAt(next, id, after, after);
    SlotsSplit(next, id, s, s + 1, bound);
    SlotsSplit(next, id, s + 1, after + 1, bound);
    if n <= bound {
      SlotsSplit(next, id, after + 1, n, bound);
      NoneBeforeNext(next, id, after, n - 1);
    } else {
      NoneBeforeNext(next, id, after, bound);
    }
  }

  /** Slots left up to the bound, over all triggers: the termination measure. */
  ghost function SlotsLeft(armed: seq<Armed>, next: Schedule, bound: int): nat {
    if armed == [] then 0
    else
      var last := armed[|armed| - 1];
      SlotsLeft(armed[..|armed| - 1], next, bound) + SlotsIn(next, last.id, last.nextFire, bound)
  }

  /** Moving one entry on changes the slots left by what it gives up. */
  lemma {:induction false} SlotsUpdate(armed: seq<Armed>, next: Schedule, i: nat, t: int, bound: int)
    requires i < |armed|
    ensures SlotsLeft(armed[i := armed[i].(nextFire := t)], next, bound)
          + SlotsIn(next, armed[i].id, armed[i].nextFire, bound)
         == SlotsLeft(armed, next, bound) + SlotsIn(next, armed[i].id, t, bound)
  {
    var n := |armed| - 1;
    var after := armed[i := armed[i].(nextFire := t)];
    if i < n {
      SlotsUpdate(armed[..n], next, i, t, bound);
      assert after[..n] == armed[..n][i := armed[i].(nextFire := t)];
    } else {
      assert after[..n] == armed[..n];
    }
  }

  lemma SlotsShrink(armed: seq<Armed>, f: Fire, next: Schedule, bound: int)
    requires LeastSlot(next) && OnSlots(armed, next) && f.index < |armed|
    requires armed[f.index].nextFire <= f.after <= bound
    ensures SlotsLeft(Moved(armed, f, next), next, bound) < SlotsLeft(armed, next, bound)
  {
    var e := armed[f.index];
    FireUses(next, e.id, e.nextFire, f.after, bound);
    SlotsUpdate(armed, next, f.index, next(e.id, f.after), bound);
  }

  /** Fires leave every trigger waiting for a slot. */
  lemma {:induction false} StaysOnSlots(armed: seq<Armed>, fires: seq<Fire>, next: Schedule)
    requires LeastSlot(next) && OnSlots(armed, next) && InRange(|armed|, fires)
    ensures OnSlots(After(armed, fires, next), next)
  {
    if fires != [] {
      var front, f := fires[..|fires| - 1], fires[|fires| - 1];
      StaysOnSlots(armed, front, next);
      LeastAt(next, After(armed, front, next)[f.index].id, f.after, f.after);
    }
  }

  lemma LegalSnoc(armed: seq<Armed>, fires: seq<Fire>, f: Fire, next: Schedule, since: int)
    requires Legal(armed, fires, next, since)
    requires FiresNow(After(armed, fires, next), f, if fires == [] then since else fires[|fires| - 1].after)
    ensures Legal(armed, fires + [f], next, since)
    ensures After(armed, fires + [f], next) == Moved(After(armed, fires, next), f, next)
  {
    var all := fires + [f];
    assert all[..|all| - 1] == fires && all[|all| - 1] == f && all != [];
  }

  // ---------------------------------------------------------------- whole runs

  lemma {:induction false} LegalPrefix(armed: seq<Armed>, fires: seq<Fire>, next: Schedule, since: int, n: nat)
    requires Legal(armed, fires, next, since) && n <= |fires|
    ensures Legal(armed, fires[..n], next, since)
  {
    if n < |fires| {
      LegalPrefix(armed, fires[..|fires| - 1], next, since, n);
      assert fires[..|fires| - 1][..n] == fires[..n];
    } else {
      assert fires[..n] == fires;
    }
  }

  /** Fire `k` of a legal run, seen from the armed list just before it. */
  lemma FireAt(armed: seq<Armed>, fires: seq<Fire>, next: Schedule, since: int, k: nat)
    requires Legal(armed, fires, next, since) && k < |fires|
    ensures Legal(armed, fires[..k], next, since) && Legal(armed, fires[..k + 1], next, since)
    ensures FiresNow(After(armed, fires[..k], next), fires[k], if k == 0 then since else fires[k - 1].after)
    ensures After(armed, fires[..k + 1], next) == Moved(After(armed, fires[..k], next), fires[k], next)
  {
    LegalPrefix(armed, fires, next, since, k + 1);
    assert fires[..k + 1][..k] == fires[..k];
  }

  lemma MovedAdvances(armed: seq<Armed>, f: Fire, next: Schedule, since: int, i: nat)
    requires LeastSlot(next) && FiresNow(armed, f, since) && i < |armed|
    ensures armed[i].nextFire <= Moved(armed, f, next)[i].nextFire
    ensures f.after < Moved(armed, f, next)[f.index].nextFire
    ensures i != f.index ==> Moved(armed, f, next)[i] == armed[i]
  {
    assert next(armed[f.index].id, f.after) > f.after;
  }

  /** One fire: it takes the least entry and moves it past the fire's end; no entry moves back. */
  lemma FireMoves(armed: seq<Armed>, fires: seq<Fire>, next: Schedule, since: int, k: nat, i: nat)
    requires LeastSlot(next) && Legal(armed, fires, next, since) && k < |fires| && i < |armed|
    ensures InRange(|armed|, fires[..k]) && InRange(|armed|, fires[..k + 1]) && fires[k].index < |armed|
    ensures fires[k].scheduledFor <= After(armed, fires[..k], next)[i].nextFire
         <= After(armed, fires[..k + 1], next)[i].nextFire
    ensures fires[k].scheduledFor == After(armed, fires[..k], next)[fires[k].index].nextFire
    ensures fires[k].after < After(armed, fires[..k + 1], next)[fires[k].index].nextFire
  {
    FireAt(armed, fires, next, since, k);
    MovedAdvances(After(armed, fires[..k], next), fires[k], next, if k == 0 then since else fires[k - 1].after, i);
  }

  lemma {:induction false} EntriesAdvance(armed: seq<Armed>, fires: seq<Fire>, next: Schedule, since: int, j: nat,
                                          k: nat, i: nat)
    requires LeastSlot(next) && Legal(armed, fires, next, since) && j <= k <= |fires| && i < |armed|
    requires InRange(|armed|, fires[..j]) && InRange(|armed|, fires[..k])
    ensures After(armed, fires[..j], next)[i].nextFire <= After(armed, fires[..k], next)[i].nextFire
  {
    if j < k {
      FireMoves(armed, fires, next, since, k - 1, i);
      EntriesAdvance(armed, fires, next, since, j, k - 1, i);
    }
  }

  /** Over the whole run the times fires are scheduled for never decrease, and strictly increase for
      each trigger. */
  lemma ScheduledInOrder(armed: seq<Armed>, fires: seq<Fire>, next: Schedule, since: int, j: nat, k: nat)
    requires LeastSlot(next) && Legal(armed, fires, next, since) && j < k < |fires|
    ensures fires[j].scheduledFor <= fires[k].scheduledFor
    ensures fires[j].index == fires[k].index ==> fires[j].after < fires[k].scheduledFor
  {
    var i := fires[k].index;
    FireMoves(armed, fires, next, since, j, i);
    FireMoves(armed, fires, next, since, k, i);
    EntriesAdvance(armed, fires, next, since, j + 1, k, i);
  }

  /** Entries keep their triggers. */
  lemma {:induction false} AfterKeepsIds(armed: seq<Armed>, fires: seq<Fire>, next: Schedule, k: nat, i: nat)
    requires k <= |fires| && InRange(|armed|, fires[..k]) && i < |armed|
    ensures After(armed, fires[..k], next)[i].id == armed[i].id
  {
    if k > 0 {
      AfterSnoc(armed, fires, next, k - 1);
      AfterKeepsIds(armed, fires, next, k - 1, i);
    } else {
      assert fires[..k] == [];
    }
  }

  lemma AfterSnoc(armed: seq<Armed>, fires: seq<Fire>, next: Schedule, k: nat)
    requires k < |fires| && InRange(|armed|, fires[..k + 1])
    ensures InRange(|armed|, fires[..k]) && fires[k].index < |armed|
    ensures After(armed, fires[..k + 1], next) == Moved(After(armed, fires[..k], next), fires[k], next)
  {
    assert fires[..k + 1][..k] == fires[..k] && fires[..k + 1][k] == fires[k];
    forall m | 0 <= m < k ensures fires[..k][m].index < |armed| { assert fires[..k + 1][m] == fires[..k][m]; }
  }

  /** A trigger's entry holds the slot after its last fire. */
  lemma {:induction false} EntryIsNext(armed: seq<Armed>, fires: seq<Fire>, next: Schedule, j: nat, k: nat)
    requires j < k <= |fires| && InRange(|armed|, fires[..k]) && fires[j].index < |armed|
    requires forall m :: j < m < k ==> fires[m].index != fires[j].index
    ensures After(armed, fires[..k], next)[fires[j].index].nextFire == next(armed[fires[j].index].id, fires[j].after)
  {
    AfterSnoc(armed, fires, next, k - 1);
    if k > j + 1 {
      EntryIsNext(armed, fires, next, j, k - 1);
    } else {
      AfterKeepsIds(armed, fires, next, j, fires[j].index);
    }
  }

  /** Between two consecutive fires of a trigger the only slots skipped are those that had already
      passed when the first fire was over; and the second fire is itself on a slot. */
  lemma SkippedSlots(armed: seq<Armed>, fires: seq<Fire>, next: Schedule, since: int, j: nat, k: nat, s: int)
    requires LeastSlot(next) && Legal(armed, fires, next, since) && j < k < |fires|
    requires fires[j].index == fires[k].index && forall m :: j < m < k ==> fires[m].index != fires[j].index
    requires fires[j].index < |armed|
    ensures var id := armed[fires[j].index].id;
            && IsSlot(next, id, fires[k].scheduledFor)
            && (IsSlot(next, id, s) && fires[j].scheduledFor < s < fires[k].scheduledFor ==> s <= fires[j].after)
  {
    FireAt(armed, fires, next, since, k);
    EntryIsNext(armed, fires, next, j, k);
    LeastAt(next, armed[fires[j].index].id, fires[j].after, s);
  }

  /** The fires of trigger `i`. */
  function FiresOf(fires: seq<Fire>, i: nat): nat {
    if fires == [] then 0
    else FiresOf(fires[..|fires| - 1], i) + if fires[|fires| - 1].index == i then 1 else 0
  }

  /** The slots of trigger `i` that passed while one of its fires was late or running. */
  ghost function Skipped(fires: seq<Fire>, next: Schedule, id: string, i: nat): nat {
    if fires == [] then 0
    else
      var f := fires[|fires| - 1];
      Skipped(fires[..|fires| - 1], next, id, i)
      + if f.index == i then SlotsIn(next, id, f.scheduledFor + 1, f.after) else 0
  }

  /** Every slot of a trigger up to any bound on the clock is one of its fires, is skipped at one of
      its fires, or is still ahead of it; none is served twice. */
  lemma {:induction false} SlotsConserved(armed: seq<Armed>, fires: seq<Fire>, next: Schedule, since: int, bound: int,
                                          i: nat)
    requires LeastSlot(next) && OnSlots(armed, next) && Legal(armed, fires, next, since) && i < |armed|
    requires forall k :: 0 <= k < |fires| ==> fires[k].after <= bound
    ensures SlotsIn(next, armed[i].id, armed[i].nextFire, bound)
         == FiresOf(fires, i) + Skipped(fires, next, armed[i].id, i)
          + SlotsIn(next, armed[i].id, After(armed, fires, next)[i].nextFire, bound)
  {
    if fires != [] {
      var front, f := fires[..|fires| - 1], fires[|fires| - 1];
      SlotsConserved(armed, front, next, since, bound, i);
      StaysOnSlots(armed, front, next);
      AfterKeepsIds(armed, front, next, |front|, i);
      assert front[..|front|] == front;
      if f.index == i { FireUses(next, armed[i].id, f.scheduledFor, f.after, bound); }
    }
  }

  /** All triggers together: the fires are at most the slots used up. */
  lemma {:induction false} FiresBounded(armed: seq<Armed>, fires: seq<Fire>, next: Schedule, since: int, bound: int)
    requires LeastSlot(next) && OnSlots(armed, next) && Legal(armed, fires, next, since)
    requires forall k :: 0 <= k < |fires| ==> fires[k].after <= bound
    ensures |fires| + SlotsLeft(After(armed, fires, next), next, bound) <= SlotsLeft(armed, next, bound)
  {
    if fires != [] {
      var front, f := fires[..|fires| - 1], fires[|fires| - 1];
      FiresBounded(armed, front, next, since, bound);
      StaysOnSlots(armed, front, next);
      SlotsShrink(After(armed, front, next), f, next, bound);
    }
  }

  /** With the clock standing still, a tick that drains the list fires exactly the due triggers,
      once each. */
  lemma FrozenClock(armed: seq<Armed>, fires: seq<Fire>, next: Schedule, now: int)
    requires LeastSlot(next) && Legal(armed, fires, next, now)
    requires forall k :: 0 <= k < |fires| ==> fires[k].after == now
    requires forall i :: 0 <= i < |armed| ==> After(armed, fires, next)[i].nextFire > now
    ensures forall j, k :: 0 <= j < k < |fires| ==> fires[j].index != fires[k].index
    ensures forall i :: 0 <= i < |armed| ==>
              (armed[i].nextFire <= now <==> exists k :: 0 <= k < |fires| && fires[k].index == i)
  {
    forall j, k | 0 <= j < k < |fires| ensures fires[j].index != fires[k].index {
      ScheduledInOrder(armed, fires, next, now, j, k);
      FireAt(armed, fires, next, now, k);
    }
    forall i | 0 <= i < |armed|
      ensures armed[i].nextFire <= now <==> exists k :: 0 <= k < |fires| && fires[k].index == i
    {
      if k :| 0 <= k < |fires| && fires[k].index == i {
        FireAt(armed, fires, next, now, k);
        EntriesAdvance(armed, fires, next, now, 0, k, i);
        assert fires[..0] == [];
      } else {
        Untouched(armed, fires, next, now, i);
      }
    }
  }

  lemma {:induction false} Untouched(armed: seq<Armed>, fires: seq<Fire>, next: Schedule, since: int, i: nat)
    requires Legal(armed, fires, next, since) && i < |armed|
    requires forall k :: 0 <= k < |fires| ==> fires[k].index != i
    ensures After(armed, fires, next)[i] == armed[i]
  {
    if fires != [] { Untouched(armed, fires[..|fires| - 1], next, since, i); }
  }
}
