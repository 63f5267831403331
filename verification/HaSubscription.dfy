/** The long-lived Home Assistant subscription: reconnects, doubling backoff, announcements. */
module HaSubscription {
  import opened Prelude
  import opened AuditClamp

  /** One event as it arrives: whether the callback raises on it, whether the audit writes that it may
      cause (the announcement, the error row) fail, and whether `stop` is signalled by the time it has
      been dealt with. */
  datatype Delivery = Delivery(event: Value, raises: bool, announceFails: bool, errorFails: bool, stops: bool)

  /** What one connection brings, and whether `stop` is signalled in it after the last event dealt with. */
  datatype Lifetime = Lifetime(deliveries: seq<Delivery>, stopped: bool)

  datatype Row = Opened | Reconnected(count: nat) | CallbackError

  datatype Track = Track(count: nat, rows: seq<Row>, seen: seq<Value>)

  function RowFor(count: nat): Row {
    if count == 1 then Opened else Reconnected(count)
  }

  function Announced(t: Track, announced: bool): Track {
    if announced then t else t.(count := t.count + 1, rows := t.rows + [RowFor(t.count + 1)])
  }

  function Called(t: Track, d: Delivery): Track {
    t.(seen := t.seen + [d.event], rows := if d.raises && !d.errorFails then t.rows + [CallbackError] else t.rows)
  }

  /** Nothing more of the connection is taken after this delivery. */
  predicate Ends(d: Delivery) {
    d.stops || (d.raises && d.errorFails)
  }

  /** The events of one connection in turn; a failed audit write or a stop ends it. */
  function Consumed(t: Track, ds: seq<Delivery>, announced: bool): Track
    decreases |ds|
  {
    if ds == [] then t
    else if !announced && ds[0].announceFails then t.(count := t.count + 1)
    else if Ends(ds[0]) then Called(Announced(t, announced), ds[0])
    else Consumed(Called(Announced(t, announced), ds[0]), ds[1..], true)
  }

  /** `stop` is signalled while a delivery is dealt with. */
  predicate StopSeen(ds: seq<Delivery>, announced: bool)
    decreases |ds|
  {
    ds != []
    && if (!announced && ds[0].announceFails) || Ends(ds[0]) then ds[0].stops else StopSeen(ds[1..], true)
  }

  predicate Stops(life: Lifetime) {
    life.stopped || StopSeen(life.deliveries, false)
  }

  /** A run: what happened so far, the bases handed to the sleep, the next base. */
  datatype Stream = Stream(track: Track, bases: seq<real>, backoff: real, stopped: bool)

  function Connected(s: Stream, life: Lifetime, maxBackoff: real): Stream {
    if s.stopped then s
    else
      var track := Consumed(s.track, life.deliveries, false);
      if Stops(life) then s.(track := track, stopped := true)
      else Stream(track, s.bases + [s.backoff], MinReal(s.backoff * 2.0, maxBackoff), false)
  }

  function Run(lives: seq<Lifetime>, initial: real, maxBackoff: real): Stream {
    if lives == [] then Stream(Track(0, [], []), [], initial, false)
    else Connected(Run(lives[..|lives| - 1], initial, maxBackoff), lives[|lives| - 1], maxBackoff)
  }

  class ResilientHAEventStream {
    const initialBackoff: real
    const maxBackoff: real
    var connectCount: nat
    var announcedThisConnect: bool
    var rows: seq<Row>
    var seen: seq<Value>
    var sleeps: seq<real>
    var stopped: bool

    constructor (initialBackoff: real, maxBackoff: real)
      ensures this.initialBackoff == initialBackoff && this.maxBackoff == maxBackoff
      ensures CurrentTrack() == Track(0, [], []) && sleeps == [] && !stopped && !announcedThisConnect
    {
      this.initialBackoff, this.maxBackoff := initialBackoff, maxBackoff;
      connectCount, announcedThisConnect, rows, seen, sleeps, stopped := 0, false, [], [], [], false;
    }

    function CurrentTrack(): Track
      reads this
    {
      Track(connectCount, rows, seen)
    }

    /** The callback on one event; its error goes to the log. The result says whether that could be done. */
    method Deliver(d: Delivery) returns (ok: bool)
      modifies `seen, `rows
      ensures CurrentTrack() == Called(old(CurrentTrack()), d) && (ok <==> !(d.raises && d.errorFails))
    {
      seen := seen + [d.event];
      if d.raises {
        if d.errorFails { return false; }
        rows := rows + [CallbackError];
      }
      ok := true;
    }

    method ConsumeOneSubscription(ds: seq<Delivery>)
      requires !announcedThisConnect && !stopped
      modifies this
      ensures CurrentTrack() == Consumed(old(CurrentTrack()), ds, false) && stopped == StopSeen(ds, false)
      ensures !announcedThisConnect && sleeps == old(sleeps)
    {
      var i := 0;
      while i < |ds|
        invariant 0 <= i <= |ds| && sleeps == old(sleeps) && !stopped
        invariant Consumed(old(CurrentTrack()), ds, false) == Consumed(CurrentTrack(), ds[i..], announcedThisConnect)
        invariant StopSeen(ds, false) == StopSeen(ds[i..], announcedThisConnect)
      {
        var d := ds[i];
        assert ds[i..][1..] == ds[i + 1..];
        stopped := d.stops;
        if !announcedThisConnect {
          connectCount := connectCount + 1;
          if d.announceFails { break; }
          rows := rows + [if connectCount == 1 then Opened else Reconnected(connectCount)];
          announcedThisConnect := true;
        }
        var ok := Deliver(d);
        if !ok || stopped { break; }
        i := i + 1;
      }
      announcedThisConnect := false;
    }

    /** Connect, consume, back off, until stopped or out of connections. */
    method RunStream(lives: seq<Lifetime>)
      requires !announcedThisConnect && CurrentTrack() == Track(0, [], []) && sleeps == [] && !stopped
      modifies this
      ensures var s := Run(lives, initialBackoff, maxBackoff);
              CurrentTrack() == s.track && sleeps == s.bases && stopped == s.stopped
    {
      var backoff := initialBackoff;
      var i := 0;
      while i < |lives| && !stopped
        invariant 0 <= i <= |lives| && !announcedThisConnect
        invariant Run(lives[..i], initialBackoff, maxBackoff) == Stream(CurrentTrack(), sleeps, backoff, stopped)
      {
        assert lives[..i + 1][..i] == lives[..i];
        ConsumeOneSubscription(lives[i].deliveries);
        i := i + 1;
        stopped := stopped || lives[i - 1].stopped;
        if !stopped {
          sleeps := sleeps + [backoff];
          backoff := MinReal(backoff * 2.0, maxBackoff);
        }
      }
      if stopped { StaysStopped(lives, i, initialBackoff, maxBackoff); } else { assert lives[..i] == lives; }
    }
  }

  lemma {:induction false} StaysStopped(lives: seq<Lifetime>, i: nat, initial: real, maxBackoff: real)
    requires i <= |lives| && Run(lives[..i], initial, maxBackoff).stopped
    ensures Run(lives, initial, maxBackoff) == Run(lives[..i], initial, maxBackoff)
  {
    if i < |lives| {
      assert lives[..|lives| - 1][..i] == lives[..i];
      StaysStopped(lives[..|lives| - 1], i, initial, maxBackoff);
    } else {
      assert lives[..i] == lives;
    }
  }

  // ---------------------------------------------------------------- connections and announcements

  /** The connections that happen: up to the first one during which `stop` is signalled. */
  function Lived(lives: seq<Lifetime>): seq<Lifetime>
    decreases |lives|
  {
    if lives == [] then []
    else if Stops(lives[0]) then [lives[0]]
    else [lives[0]] + Lived(lives[1..])
  }

  predicate NobodyStops(lives: seq<Lifetime>) {
    forall i :: 0 <= i < |lives| ==> !Stops(lives[i])
  }

  lemma ConnectedStops(s: Stream, life: Lifetime, maxBackoff: real)
    ensures Connected(s, life, maxBackoff).stopped <==> s.stopped || Stops(life)
  {
  }

  lemma NobodySnoc(lives: seq<Lifetime>, last: Lifetime)
    ensures NobodyStops(lives + [last]) <==> NobodyStops(lives) && !Stops(last)
  {
    if NobodyStops(lives + [last]) {
      assert forall i :: 0 <= i < |lives| ==> (lives + [last])[i] == lives[i];
      assert (lives + [last])[|lives|] == last;
    }
  }

  lemma {:induction false} RunStops(lives: seq<Lifetime>, initial: real, maxBackoff: real)
    ensures Run(lives, initial, maxBackoff).stopped <==> !NobodyStops(lives)
  {
    if lives != [] {
      var front, last := lives[..|lives| - 1], lives[|lives| - 1];
      RunStops(front, initial, maxBackoff);
      ConnectedStops(Run(front, initial, maxBackoff), last, maxBackoff);
      NobodySnoc(front, last);
      assert lives == front + [last];
    }
  }

  lemma {:induction false} LivedAll(lives: seq<Lifetime>)
    requires NobodyStops(lives)
    ensures Lived(lives) == lives
    decreases |lives|
  {
    if lives != [] { LivedAll(lives[1..]); }
  }

  lemma {:induction false} LivedSnoc(lives: seq<Lifetime>, last: Lifetime)
    ensures Lived(lives + [last]) == if NobodyStops(lives) then lives + [last] else Lived(lives)
    decreases |lives|
  {
    if lives != [] {
      assert (lives + [last])[1..] == lives[1..] + [last];
      LivedSnoc(lives[1..], last);
      if !Stops(lives[0]) { assert NobodyStops(lives) <==> NobodyStops(lives[1..]); }
    } else {
      assert [] + [last] == [last];
    }
  }

  function WithEvents(lives: seq<Lifetime>): nat {
    if lives == [] then 0
    else WithEvents(lives[..|lives| - 1]) + if lives[|lives| - 1].deliveries != [] then 1 else 0
  }

  /** What the callback sees of one connection. */
  function Heard(ds: seq<Delivery>, announced: bool): seq<Value>
    decreases |ds|
  {
    if ds == [] || (!announced && ds[0].announceFails) then []
    else if Ends(ds[0]) then [ds[0].event]
    else [ds[0].event] + Heard(ds[1..], true)
  }

  function Announcements(rows: seq<Row>): seq<Row> {
    if rows == [] then []
    else Announcements(rows[..|rows| - 1]) + if rows[|rows| - 1].CallbackError? then [] else [rows[|rows| - 1]]
  }

  function NewRows(ds: seq<Delivery>, announced: bool, count: nat): seq<Row> {
    if ds != [] && !announced && !ds[0].announceFails then [RowFor(count)] else []
  }

  lemma AnnouncementsSnoc(rows: seq<Row>, row: Row)
    ensures Announcements(rows + [row]) == Announcements(rows) + if row.CallbackError? then [] else [row]
  {
    assert (rows + [row])[..|rows|] == rows;
  }

  lemma CalledAnnouncements(t: Track, d: Delivery)
    ensures Announcements(Called(t, d).rows) == Announcements(t.rows)
  {
    if d.raises && !d.errorFails { AnnouncementsSnoc(t.rows, CallbackError); }
  }

  /** What a stretch of one connection adds to the state. */
  predicate Adds(t: Track, after: Track, ds: seq<Delivery>, announced: bool) {
    && after.count == t.count + (if ds != [] && !announced then 1 else 0)
    && after.seen == t.seen + Heard(ds, announced)
    && Announcements(after.rows) == Announcements(t.rows) + NewRows(ds, announced, t.count + 1)
  }

  lemma AnnouncedRows(t: Track, announced: bool)
    ensures Announcements(Announced(t, announced).rows)
         == Announcements(t.rows) + if announced then [] else [RowFor(t.count + 1)]
  {
    if !announced { AnnouncementsSnoc(t.rows, RowFor(t.count + 1)); }
  }

  lemma OneMoreAdds(t: Track, after: Track, ds: seq<Delivery>, announced: bool)
    requires ds != [] && (announced || !ds[0].announceFails) && !Ends(ds[0])
    requires Adds(Called(Announced(t, announced), ds[0]), after, ds[1..], true)
    ensures Adds(t, after, ds, announced)
  {
    var called := Called(Announced(t, announced), ds[0]);
    assert after.count == t.count + if announced then 0 else 1;
    assert after.seen == t.seen + Heard(ds, announced) by {
      Regroup(t.seen, [ds[0].event], Heard(ds[1..], true));
    }
    assert Announcements(called.rows) == Announcements(t.rows) + NewRows(ds, announced, t.count + 1) by {
      AnnouncedRows(t, announced);
      CalledAnnouncements(Announced(t, announced), ds[0]);
    }
    Unchanged(Announcements(called.rows), Announcements(after.rows));
  }

  lemma Unchanged(a: seq<Row>, b: seq<Row>)
    requires b == a + []
    ensures b == a
  {
  }

  lemma LastAdds(t: Track, ds: seq<Delivery>, announced: bool)
    requires ds != [] && (announced || !ds[0].announceFails) && Ends(ds[0])
    ensures Adds(t, Called(Announced(t, announced), ds[0]), ds, announced)
  {
    AnnouncedRows(t, announced);
    CalledAnnouncements(Announced(t, announced), ds[0]);
  }

  lemma {:induction false} ConsumedAdds(t: Track, ds: seq<Delivery>, announced: bool)
    ensures Adds(t, Consumed(t, ds, announced), ds, announced)
    decreases |ds|
  {
    if ds != [] && (announced || !ds[0].announceFails) {
      if Ends(ds[0]) {
        LastAdds(t, ds, announced);
      } else {
        ConsumedAdds(Called(Announced(t, announced), ds[0]), ds[1..], true);
        OneMoreAdds(t, Consumed(t, ds, announced), ds, announced);
      }
    }
  }

  function ErrorRows(rows: seq<Row>): nat {
    if rows == [] then 0 else ErrorRows(rows[..|rows| - 1]) + if rows[|rows| - 1].CallbackError? then 1 else 0
  }

  predicate Complains(d: Delivery) {
    d.raises && !d.errorFails
  }

  /** Callbacks that raised, with the row about it written. */
  function Complaints(ds: seq<Delivery>): nat
    decreases |ds|
  {
    if ds == [] then 0 else (if Complains(ds[0]) then 1 else 0) + Complaints(ds[1..])
  }

  lemma CalledErrors(t: Track, d: Delivery, announced: bool)
    ensures ErrorRows(Called(Announced(t, announced), d).rows)
         == ErrorRows(t.rows) + if Complains(d) then 1 else 0
  {
    var rows := Announced(t, announced).rows;
    if !announced { assert rows[..|t.rows|] == t.rows; }
    assert (rows + [CallbackError])[..|rows|] == rows;
  }

  lemma {:induction false} HeardNoMore(ds: seq<Delivery>, announced: bool)
    ensures |Heard(ds, announced)| <= |ds|
    decreases |ds|
  {
    if ds != [] { HeardNoMore(ds[1..], true); }
  }

  /** What the deliveries that are handed on complain of. */
  function HeardComplaints(ds: seq<Delivery>, announced: bool): nat {
    HeardNoMore(ds, announced);
    Complaints(ds[..|Heard(ds, announced)|])
  }

  lemma HeardStep(ds: seq<Delivery>, announced: bool)
    requires ds != []
    ensures HeardComplaints(ds, announced) ==
            if !announced && ds[0].announceFails then 0
            else (if Complains(ds[0]) then 1 else 0) + if Ends(ds[0]) then 0 else HeardComplaints(ds[1..], true)
  {
    HeardNoMore(ds, announced);
    HeardNoMore(ds[1..], true);
    if announced || !ds[0].announceFails {
      if Ends(ds[0]) {
        var one := ds[..1];
        assert Heard(ds, announced) == [ds[0].event] && one[0] == ds[0] && one[1..] == [];
        assert Complaints(one) == (if Complains(one[0]) then 1 else 0) + Complaints([]);
      } else {
        var n := |Heard(ds[1..], true)|;
        assert ds[..n + 1][1..] == ds[1..][..n];
      }
    }
  }

  /** One error row for each callback that raised on an event it was handed, if the row could be written. */
  lemma {:induction false} ErrorsRecorded(t: Track, ds: seq<Delivery>, announced: bool)
    ensures ErrorRows(Consumed(t, ds, announced).rows) == ErrorRows(t.rows) + HeardComplaints(ds, announced)
    decreases |ds|
  {
    if ds != [] {
      HeardStep(ds, announced);
      if announced || !ds[0].announceFails {
        CalledErrors(t, ds[0], announced);
        if !Ends(ds[0]) { ErrorsRecorded(Called(Announced(t, announced), ds[0]), ds[1..], true); }
      }
    }
  }

  function AllHeard(lives: seq<Lifetime>): seq<Value> {
    if lives == [] then [] else AllHeard(lives[..|lives| - 1]) + Heard(lives[|lives| - 1].deliveries, false)
  }

  function AllAnnounced(lives: seq<Lifetime>): seq<Row> {
    if lives == [] then []
    else
      var front := lives[..|lives| - 1];
      AllAnnounced(front) + NewRows(lives[|lives| - 1].deliveries, false, WithEvents(front) + 1)
  }

  /** The base of sleep number `n`; it is never reset. */
  function Backoff(n: nat, initial: real, maxBackoff: real): real {
    if n == 0 then initial else MinReal(Backoff(n - 1, initial, maxBackoff) * 2.0, maxBackoff)
  }

  /** `s` is the state of a run through `lived`. */
  predicate Sums(s: Stream, lived: seq<Lifetime>, initial: real, maxBackoff: real) {
    && s.track.count == WithEvents(lived)
    && s.track.seen == AllHeard(lived)
    && Announcements(s.track.rows) == AllAnnounced(lived)
    && |s.bases| == (if s.stopped && lived != [] then |lived| - 1 else |lived|)
    && (!s.stopped ==> s.backoff == Backoff(|lived|, initial, maxBackoff))
    && (forall i :: 0 <= i < |s.bases| ==> s.bases[i] == Backoff(i, initial, maxBackoff))
  }

  lemma ConnectedSums(s: Stream, lived: seq<Lifetime>, life: Lifetime, initial: real, maxBackoff: real)
    requires Sums(s, lived, initial, maxBackoff) && !s.stopped
    ensures Sums(Connected(s, life, maxBackoff), lived + [life], initial, maxBackoff)
  {
    ConsumedAdds(s.track, life.deliveries, false);
    assert (lived + [life])[..|lived|] == lived;
  }

  /** After any run: the connections counted are those that brought at least one event; the callback has
      seen what each of them delivered, in order; the announcements and the sleeps are as computed. */
  lemma {:induction false} RunSums(lives: seq<Lifetime>, initial: real, maxBackoff: real)
    ensures Sums(Run(lives, initial, maxBackoff), Lived(lives), initial, maxBackoff)
  {
    if lives != [] {
      var front, last := lives[..|lives| - 1], lives[|lives| - 1];
      assert lives == front + [last];
      RunSums(front, initial, maxBackoff);
      LifeSums(front, last, initial, maxBackoff);
    }
  }

  lemma LifeSums(front: seq<Lifetime>, last: Lifetime, initial: real, maxBackoff: real)
    requires Sums(Run(front, initial, maxBackoff), Lived(front), initial, maxBackoff)
    ensures Sums(Connected(Run(front, initial, maxBackoff), last, maxBackoff), Lived(front + [last]), initial,
                 maxBackoff)
  {
    RunStops(front, initial, maxBackoff);
    LivedSnoc(front, last);
    if NobodyStops(front) {
      LivedAll(front);
      ConnectedSums(Run(front, initial, maxBackoff), front, last, initial, maxBackoff);
    }
  }

  // ---------------------------------------------------------------- when the audit log is up

  /** No audit write that the connection makes fails. */
  predicate AuditUp(ds: seq<Delivery>) {
    forall i :: 0 <= i < |ds| ==> !ds[i].announceFails && !ds[i].errorFails
  }

  function EventsOf(ds: seq<Delivery>): seq<Value> {
    seq(|ds|, i requires 0 <= i < |ds| => ds[i].event)
  }

  /** The deliveries up to the first one after which the connection is stopped. */
  function UntilStop(ds: seq<Delivery>): seq<Delivery>
    decreases |ds|
  {
    if ds == [] then []
    else if ds[0].stops then [ds[0]]
    else [ds[0]] + UntilStop(ds[1..])
  }

  function AllEvents(lives: seq<Lifetime>): seq<Value> {
    if lives == [] then [] else AllEvents(lives[..|lives| - 1]) + EventsOf(UntilStop(lives[|lives| - 1].deliveries))
  }

  /** A callback error alone drops nothing: the callback misses events of a connection exactly when the
      announcement fails, or an error row fails or a stop is signalled before the last event. */
  lemma {:induction false} HeardAllIff(ds: seq<Delivery>, announced: bool)
    ensures Heard(ds, announced) <= EventsOf(ds)
    ensures Heard(ds, announced) == EventsOf(ds)
       <==> (ds != [] && !announced ==> !ds[0].announceFails)
            && forall i :: 0 <= i < |ds| - 1 ==> !Ends(ds[i])
    decreases |ds|
  {
    if ds != [] {
      var tail := ds[1..];
      assert EventsOf(ds) == [ds[0].event] + EventsOf(tail);
      HeardAllIff(tail, true);
      ShiftFaults(ds);
      if |ds| == 1 { assert EventsOf(tail) == []; }
    }
  }

  predicate EarlyFault(ds: seq<Delivery>) {
    exists i :: 0 <= i < |ds| - 1 && Ends(ds[i])
  }

  lemma ShiftFaults(ds: seq<Delivery>)
    requires ds != []
    ensures EarlyFault(ds) <==> (|ds| > 1 && Ends(ds[0])) || EarlyFault(ds[1..])
  {
    if i :| 0 <= i < |ds| - 1 && Ends(ds[i]) {
      if i > 0 { assert ds[1..][i - 1] == ds[i]; }
    }
    if i :| 0 <= i < |ds[1..]| - 1 && Ends(ds[1..][i]) { assert ds[i + 1] == ds[1..][i]; }
  }

  lemma {:induction false} HeardUntilStop(ds: seq<Delivery>, announced: bool)
    requires AuditUp(ds)
    ensures Heard(ds, announced) == EventsOf(UntilStop(ds))
    decreases |ds|
  {
    if ds != [] && !ds[0].stops {
      HeardUntilStop(ds[1..], true);
      assert EventsOf(UntilStop(ds)) == [ds[0].event] + EventsOf(UntilStop(ds[1..]));
    }
  }

  /** One opened row, then reconnected rows numbered from 2. */
  function Numbered(n: nat): seq<Row> {
    if n == 0 then [] else Numbered(n - 1) + [RowFor(n)]
  }

  /** While the audit log is up, the callback sees the concatenation of all events up to the stop, whatever
      it raises on, and the announcements are one opened row and the reconnected rows 2, 3, ... up to the count. */
  lemma {:induction false} AuditedRun(lives: seq<Lifetime>)
    requires forall i :: 0 <= i < |lives| ==> AuditUp(lives[i].deliveries)
    ensures AllHeard(lives) == AllEvents(lives) && AllAnnounced(lives) == Numbered(WithEvents(lives))
  {
    if lives != [] {
      var ds := lives[|lives| - 1].deliveries;
      AuditedRun(lives[..|lives| - 1]);
      HeardUntilStop(ds, false);
      assert NewRows(ds, false, WithEvents(lives[..|lives| - 1]) + 1)
          == if ds != [] then [RowFor(WithEvents(lives))] else [];
    }
  }

  lemma {:induction false} NumberedRows(n: nat)
    ensures |Numbered(n)| == n
    ensures forall i :: 0 <= i < n ==> Numbered(n)[i] == if i == 0 then Opened else Reconnected(i + 1)
  {
    if n > 0 { NumberedRows(n - 1); }
  }

  // ---------------------------------------------------------------- backoff

  function Doubled(x: real, n: nat): real {
    if n == 0 then x else Doubled(x, n - 1) * 2.0
  }

  lemma {:induction false} BackoffCapped(n: nat, initial: real, maxBackoff: real)
    requires n >= 1 && (maxBackoff >= 0.0 || initial * 2.0 <= maxBackoff)
    ensures Backoff(n, initial, maxBackoff) == MinReal(Doubled(initial, n), maxBackoff)
    ensures maxBackoff < 0.0 ==> Doubled(initial, n) <= maxBackoff
  {
    if n > 1 { BackoffCapped(n - 1, initial, maxBackoff); }
  }

  predicate CappedDoubling(n: nat, initial: real, maxBackoff: real) {
    Backoff(n, initial, maxBackoff) == MinReal(Doubled(initial, n), maxBackoff)
  }

  /** After the first sleep, every base is the capped power of two exactly for the settings where the
      cap is not negative (or the first doubling is already below it); the first base is `initial`
      itself, so it obeys the cap exactly when `initial` does. */
  lemma BackoffIff(initial: real, maxBackoff: real)
    ensures (forall n: nat :: n >= 1 ==> CappedDoubling(n, initial, maxBackoff)) <==>
              maxBackoff >= 0.0 || initial * 2.0 <= maxBackoff
    ensures CappedDoubling(0, initial, maxBackoff) <==> initial <= maxBackoff
  {
    if maxBackoff >= 0.0 || initial * 2.0 <= maxBackoff {
      forall n: nat | n >= 1 ensures CappedDoubling(n, initial, maxBackoff) { BackoffCapped(n, initial, maxBackoff); }
    } else {
      assert Backoff(1, initial, maxBackoff) == maxBackoff;
      assert Doubled(initial, 1) == initial * 2.0;
      assert !CappedDoubling(2, initial, maxBackoff);
    }
  }
}
