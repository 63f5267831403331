/** The Home Assistant event driver: one cooldown and one coalesced suppression row per trigger. */
module HaDriver {
  import opened Prelude

  datatype Trigger = Trigger(id: string, cooldown: Option<int>)

  datatype Suppression = Suppression(count: nat, first: int, last: int)

  /** What the driver lets out: a run of the brain, or a suppression row in the audit log. */
  datatype Entry = FireEntry(id: string, at: int) | RowEntry(id: string, s: Suppression)

  datatype Out = FireOut(at: int) | RowOut(s: Suppression)

  /** One trigger's part of the driver's state and output. */
  datatype Track = Track(last: Option<int>, pending: Option<Suppression>, out: seq<Out>)

  function Cooling(cooldown: Option<int>, last: Option<int>, now: int): bool {
    cooldown.Some? && last.Some? && now - last.value < cooldown.value
  }

  function Coalesced(pending: Option<Suppression>, now: int): Suppression {
    if pending.None? then Suppression(1, now, now)
    else pending.value.(count := pending.value.count + 1, last := now)
  }

  function Flushed(t: Track): Track {
    if t.pending.None? then t else t.(pending := None, out := t.out + [RowOut(t.pending.value)])
  }

  /** One matching event at `now`. */
  function Handle(t: Track, cooldown: Option<int>, now: int): Track {
    if Cooling(cooldown, t.last, now) then t.(pending := Some(Coalesced(t.pending, now)))
    else
      var f := Flushed(t);
      f.(last := Some(now), out := f.out + [FireOut(now)])
  }

  function Project(log: seq<Entry>, id: string): seq<Out> {
    if log == [] then []
    else
      var e := log[|log| - 1];
      var front := Project(log[..|log| - 1], id);
      if e.id != id then front
      else front + [if e.FireEntry? then FireOut(e.at) else RowOut(e.s)]
  }

  lemma ProjectSnoc(log: seq<Entry>, e: Entry, id: string)
    ensures Project(log + [e], id)
         == if e.id != id then Project(log, id)
            else Project(log, id) + [if e.FireEntry? then FireOut(e.at) else RowOut(e.s)]
  {
    assert (log + [e])[..|log|] == log;
  }

  /** What would raise in one trigger's turn in the event loop, if the turn comes to it. */
  datatype Fault = Fault(flush: bool, fire: bool)

  /** The turn has a pending record to flush, and that fails. */
  predicate FlushFailed(t: Track, cooldown: Option<int>, now: int, fault: Fault) {
    !Cooling(cooldown, t.last, now) && fault.flush && t.pending.Some?
  }

  /** The turn ends in an exception. */
  predicate Raises(t: Track, cooldown: Option<int>, now: int, fault: Fault) {
    !Cooling(cooldown, t.last, now) && (fault.fire || (fault.flush && t.pending.Some?))
  }

  /** One trigger's turn: a failed flush has already dropped the pending record, and nothing fires. */
  function Turn(t: Track, cooldown: Option<int>, now: int, fault: Fault): Track {
    if FlushFailed(t, cooldown, now, fault) then t.(pending := None) else Handle(t, cooldown, now)
  }

  /** One event: the positions of the triggers it matches, and of those whose flush or run would raise. */
  datatype Arrival = Arrival(at: int, matched: set<nat>, flushFails: set<nat>, fireFails: set<nat>)

  function FaultOf(e: Arrival, i: nat): Fault {
    Fault(i in e.flushFails, i in e.fireFails)
  }

  predicate TurnRaises(armed: seq<Trigger>, ts: seq<Track>, e: Arrival, k: nat)
    requires |ts| == |armed| && k < |armed|
  {
    k in e.matched && Raises(ts[k], armed[k].cooldown, e.at, FaultOf(e, k))
  }

  /** The first trigger from `i` on whose turn raises, or the number of triggers. */
  function Halt(armed: seq<Trigger>, ts: seq<Track>, e: Arrival, i: nat): (h: nat)
    requires |ts| == |armed| && i <= |armed|
    ensures i <= h <= |armed|
    ensures forall k :: i <= k < h ==> !TurnRaises(armed, ts, e, k)
    ensures h < |armed| ==> TurnRaises(armed, ts, e, h)
    decreases |armed| - i
  {
    if i == |armed| || TurnRaises(armed, ts, e, i) then i else Halt(armed, ts, e, i + 1)
  }

  /** Trigger `i` matches the event and no earlier trigger raises on it. */
  predicate HasTurn(armed: seq<Trigger>, ts: seq<Track>, e: Arrival, i: nat)
    requires |ts| == |armed|
  {
    i in e.matched && i <= Halt(armed, ts, e, 0)
  }

  function AfterEvent(armed: seq<Trigger>, ts: seq<Track>, e: Arrival): (r: seq<Track>)
    requires |ts| == |armed|
    ensures |r| == |armed|
  {
    seq(|ts|, i requires 0 <= i < |ts| =>
      if HasTurn(armed, ts, e, i) then Turn(ts[i], armed[i].cooldown, e.at, FaultOf(e, i)) else ts[i])
  }

  /** How the shutdown flush treats one trigger. */
  datatype Fate = Written | WriteFails | NotReached

  function Ended(t: Track, fate: Fate): Track {
    match fate
    case Written => Flushed(t)
    case WriteFails => t.(pending := None)
    case NotReached => t
  }

  predicate DistinctIds(ts: seq<Trigger>) {
    forall i, j :: 0 <= i < j < |ts| ==> ts[i].id != ts[j].id
  }

  function IdSet(ids: seq<string>): set<string> {
    set id | id in ids
  }

  class HAEventDriver {
    const armed: seq<Trigger>
    var lastFired: map<string, int>
    var suppressed: map<string, Suppression>
    var log: seq<Entry>

    constructor (armed: seq<Trigger>)
      ensures this.armed == armed && forall id :: TrackOf(id) == Track(None, None, [])
    {
      this.armed := armed;
      lastFired, suppressed, log := map[], map[], [];
    }

    function TrackOf(id: string): Track
      reads this
    {
      Track(if id in lastFired then Some(lastFired[id]) else None,
            if id in suppressed then Some(suppressed[id]) else None,
            Project(log, id))
    }

    method RecordSuppression(id: string, now: int)
      modifies this
      ensures TrackOf(id) == old(TrackOf(id)).(pending := Some(Coalesced(old(TrackOf(id)).pending, now)))
      ensures forall x :: x != id ==> TrackOf(x) == old(TrackOf(x))
      ensures log == old(log)
    {
      if id !in suppressed {
        suppressed := suppressed[id := Suppression(1, now, now)];
        return;
      }
      var existing := suppressed[id];
      suppressed := suppressed[id := Suppression(existing.count + 1, existing.first, now)];
    }

    /** The pending record is taken out before the row is written, so a failed write loses it. */
    method FlushSuppression(id: string, fails: bool) returns (ok: bool)
      modifies this
      ensures ok ==> TrackOf(id) == Flushed(old(TrackOf(id)))
      ensures !ok ==> fails && old(TrackOf(id)).pending.Some? && TrackOf(id) == old(TrackOf(id)).(pending := None)
      ensures fails && old(TrackOf(id)).pending.Some? ==> !ok
      ensures forall x :: x != id ==> TrackOf(x) == old(TrackOf(x))
      ensures suppressed.Keys == old(suppressed).Keys - {id}
    {
      if id !in suppressed { return true; }
      var pending := suppressed[id];
      suppressed := suppressed - {id};
      if fails { return false; }
      forall x ensures Project(log + [RowEntry(id, pending)], x)
                    == if x != id then Project(log, x) else Project(log, x) + [RowOut(pending)] {
        ProjectSnoc(log, RowEntry(id, pending), x);
      }
      log := log + [RowEntry(id, pending)];
      ok := true;
    }

    /** One trigger's turn for a matching event. */
    method OneMatch(t: Trigger, now: int, fault: Fault) returns (ok: bool)
      modifies this
      ensures TrackOf(t.id) == Turn(old(TrackOf(t.id)), t.cooldown, now, fault)
      ensures ok <==> !Raises(old(TrackOf(t.id)), t.cooldown, now, fault)
      ensures forall x :: x != t.id ==> TrackOf(x) == old(TrackOf(x))
    {
      var elapsed := if t.id in lastFired then now - lastFired[t.id] else 0;
      if t.cooldown.Some? && t.id in lastFired && elapsed < t.cooldown.value {
        RecordSuppression(t.id, now);
        return true;
      }
      var flushed := FlushSuppression(t.id, fault.flush);
      if !flushed { return false; }
      MarkAndFire(t.id, now);
      ok := !fault.fire;
    }

    /** The mark is set before the run is started. */
    method MarkAndFire(id: string, now: int)
      modifies this
      ensures var t := old(TrackOf(id)); TrackOf(id) == t.(last := Some(now), out := t.out + [FireOut(now)])
      ensures forall x :: x != id ==> TrackOf(x) == old(TrackOf(x))
    {
      forall x ensures Project(log + [FireEntry(id, now)], x)
                    == if x != id then Project(log, x) else Project(log, x) + [FireOut(now)] {
        ProjectSnoc(log, FireEntry(id, now), x);
      }
      lastFired := lastFired[id := now];
      log := log + [FireEntry(id, now)];
    }

    /** The tracks of all armed triggers. */
    ghost function Tracks(): (ts: seq<Track>)
      reads this
      ensures |ts| == |armed|
    {
      seq(|armed|, i requires 0 <= i < |armed| reads this => TrackOf(armed[i].id))
    }

    /** Demultiplex one event. An exception at one trigger takes the event away from the later ones;
        `reached` is where that happened. */
    method OnEvent(e: Arrival) returns (ok: bool, reached: nat)
      requires DistinctIds(armed)
      modifies this
      ensures Tracks() == AfterEvent(armed, old(Tracks()), e)
      ensures reached == Halt(armed, old(Tracks()), e, 0) && (ok <==> reached == |armed|)
    {
      ghost var ts, h := Tracks(), Halt(armed, Tracks(), e, 0);
      reached := 0;
      while reached < |armed|
        invariant reached <= h
        invariant forall i :: 0 <= i < reached ==> TrackOf(armed[i].id) == AfterEvent(armed, ts, e)[i]
        invariant forall i :: reached <= i < |armed| ==> TrackOf(armed[i].id) == ts[i]
      {
        if reached in e.matched {
          var done := OneMatch(armed[reached], e.at, FaultOf(e, reached));
          if !done {
            assert TurnRaises(armed, ts, e, reached);
            return false, reached;
          }
        }
        reached := reached + 1;
      }
      ok := true;
    }

    ghost function TracksAt(order: seq<string>): (ts: seq<Track>)
      reads this
      ensures |ts| == |order|
    {
      seq(|order|, k requires 0 <= k < |order| reads this => TrackOf(order[k]))
    }

    /** The k-th round of the shutdown loop. */
    method FlushNext(order: seq<string>, k: nat, fails: bool) returns (ok: bool)
      requires Distinct(order) && k < |order| && suppressed.Keys == IdSet(order[k..])
      modifies this
      ensures ok <==> !fails
      ensures var was := old(TracksAt(order));
              TracksAt(order) == was[k := Ended(was[k], if ok then Written else WriteFails)]
      ensures forall id :: id !in order ==> TrackOf(id) == old(TrackOf(id))
      ensures suppressed.Keys == IdSet(order[k + 1..])
    {
      SplitAt(order, k);
      assert order[k] in order[k..] && TrackOf(order[k]).pending.Some?;
      ok := FlushSuppression(order[k], fails);
    }

    /** Shutdown: the pending records become rows in whatever order the snapshot lists them; `fails(k)`
        is the k-th write failing, which ends the loop. */
    method Stop(order: seq<string>, fails: nat -> bool) returns (ok: bool, reached: nat)
      requires Distinct(order) && IdSet(order) == suppressed.Keys
      modifies this
      ensures ok <==> reached == |order|
      ensures reached <= |order| && forall k :: 0 <= k < reached ==> !fails(k)
      ensures reached < |order| ==> fails(reached)
      ensures forall k :: 0 <= k < |order| ==> TracksAt(order)[k] == Ended(old(TracksAt(order))[k], FateOf(k, reached))
      ensures forall id :: id !in order ==> TrackOf(id) == old(TrackOf(id))
    {
      ghost var ts := TracksAt(order);
      reached := 0;
      while reached < |order|
        invariant reached <= |order| && forall k :: 0 <= k < reached ==> !fails(k)
        invariant suppressed.Keys == IdSet(order[reached..])
        invariant forall k :: 0 <= k < |order| ==> TracksAt(order)[k] == if k < reached then Flushed(ts[k]) else ts[k]
        invariant forall id :: id !in order ==> TrackOf(id) == old(TrackOf(id))
      {
        var written := FlushNext(order, reached, fails(reached));
        if !written { return false, reached; }
        reached := reached + 1;
      }
      ok := true;
    }
  }

  lemma SplitAt(order: seq<string>, k: nat)
    requires Distinct(order) && k < |order|
    ensures order[k] !in order[..k] && order[k] !in order[k + 1..]
    ensures forall id :: id in order[k..] <==> id == order[k] || id in order[k + 1..]
    ensures forall id :: id in order[..k + 1] <==> id in order[..k] || id == order[k]
  {
    assert order[k..] == [order[k]] + order[k + 1..];
    assert order[..k + 1] == order[..k] + [order[k]];
  }

  function FateOf(k: nat, reached: nat): Fate {
    if k < reached then Written else if k == reached then WriteFails else NotReached
  }

  // ---------------------------------------------------------------- one trigger over a whole run

  const START := Track(None, None, [])

  function HandleAll(times: seq<int>, cooldown: Option<int>): Track {
    if times == [] then START
    else Handle(HandleAll(times[..|times| - 1], cooldown), cooldown, times[|times| - 1])
  }

  /** A fire and the matches its cooldown swallows. */
  datatype Window = Window(fire: int, swallowed: seq<int>)

  function RunLength(times: seq<int>, fire: int, cooldown: Option<int>): (n: nat)
    ensures n <= |times|
    ensures forall i :: 0 <= i < n ==> Cooling(cooldown, Some(fire), times[i])
    ensures n < |times| ==> !Cooling(cooldown, Some(fire), times[n])
  {
    if times != [] && Cooling(cooldown, Some(fire), times[0]) then 1 + RunLength(times[1..], fire, cooldown) else 0
  }

  /** The reference: cut the match times greedily into windows, each opened by a fire. */
  function Windows(times: seq<int>, cooldown: Option<int>): seq<Window> {
    if times == [] then []
    else
      var rest := times[1..];
      var n := RunLength(rest, times[0], cooldown);
      [Window(times[0], rest[..n])] + Windows(rest[n..], cooldown)
  }

  function RowFor(w: Window): Option<Suppression> {
    if w.swallowed == [] then None
    else Some(Suppression(|w.swallowed|, w.swallowed[0], w.swallowed[|w.swallowed| - 1]))
  }

  /** What windows look like in the log: each fire is preceded by the one row of the window before
      it, if that window swallowed anything. */
  function Render(ws: seq<Window>): seq<Out> {
    if ws == [] then []
    else
      var n := |ws| - 1;
      var before := Render(ws[..n]);
      var row := if n > 0 then RowFor(ws[n - 1]) else None;
      before + (if row.Some? then [RowOut(row.value)] else []) + [FireOut(ws[n].fire)]
  }

  function Rendered(ws: seq<Window>): Track {
    if ws == [] then START
    else Track(Some(ws[|ws| - 1].fire), RowFor(ws[|ws| - 1]), Render(ws))
  }

  function Extended(ws: seq<Window>, t: int, cooldown: Option<int>): seq<Window> {
    var n := |ws| - 1;
    if ws != [] && Cooling(cooldown, Some(ws[n].fire), t)
    then ws[..n] + [ws[n].(swallowed := ws[n].swallowed + [t])]
    else ws + [Window(t, [])]
  }

  lemma {:induction false} RunLengthSnoc(times: seq<int>, fire: int, cooldown: Option<int>, t: int)
    ensures RunLength(times + [t], fire, cooldown)
         == if RunLength(times, fire, cooldown) == |times| && Cooling(cooldown, Some(fire), t) then |times| + 1
            else RunLength(times, fire, cooldown)
  {
    if times == [] {
      assert (times + [t])[1..] == [];
    } else {
      assert (times + [t])[1..] == times[1..] + [t];
      RunLengthSnoc(times[1..], fire, cooldown, t);
    }
  }

  lemma WindowsOne(t: int, cooldown: Option<int>)
    ensures Windows([t], cooldown) == [Window(t, [])]
  {
    assert [t][1..] == [] && [t][1..1] == [];
    assert RunLength([], t, cooldown) == 0;
    assert Windows([], cooldown) == [];
  }

  lemma WindowsCons(f: int, rest: seq<int>, cooldown: Option<int>)
    ensures var n := RunLength(rest, f, cooldown);
            Windows([f] + rest, cooldown) == [Window(f, rest[..n])] + Windows(rest[n..], cooldown)
  {
    assert ([f] + rest)[1..] == rest;
  }

  /** All of `rest` is swallowed: `t` joins it or opens the second window. */
  lemma OneWindowSnoc(f: int, rest: seq<int>, t: int, cooldown: Option<int>)
    requires RunLength(rest, f, cooldown) == |rest|
    ensures Windows([f] + rest, cooldown) == [Window(f, rest)]
    ensures Windows([f] + (rest + [t]), cooldown) == Extended([Window(f, rest)], t, cooldown)
  {
    var more := rest + [t];
    WindowsCons(f, rest, cooldown);
    assert rest[..|rest|] == rest && rest[|rest|..] == [];
    RunLengthSnoc(rest, f, cooldown, t);
    WindowsCons(f, more, cooldown);
    if Cooling(cooldown, Some(f), t) {
      assert more[..|more|] == more && more[|more|..] == [];
    } else {
      WindowsOne(t, cooldown);
      assert more[..|rest|] == rest && more[|rest|..] == [t];
    }
  }

  lemma {:induction false} WindowsSnoc(times: seq<int>, t: int, cooldown: Option<int>)
    ensures Windows(times + [t], cooldown) == Extended(Windows(times, cooldown), t, cooldown)
    decreases |times|
  {
    if times == [] {
      assert times + [t] == [t];
      WindowsOne(t, cooldown);
      return;
    }
    var f, rest := times[0], times[1..];
    var n := RunLength(rest, f, cooldown);
    assert times == [f] + rest && times + [t] == [f] + (rest + [t]);
    if n == |rest| {
      OneWindowSnoc(f, rest, t, cooldown);
    } else {
      WindowsSnoc(rest[n..], t, cooldown);
      TailSnoc(f, rest, n, t, cooldown);
    }
  }

  lemma SliceSnoc(rest: seq<int>, n: nat, t: int)
    requires n <= |rest|
    ensures (rest + [t])[n..] == rest[n..] + [t] && (rest + [t])[..n] == rest[..n]
  {
  }

  /** Something opened a second window: `t` goes to the windows after the first. */
  lemma TailSnoc(f: int, rest: seq<int>, n: nat, t: int, cooldown: Option<int>)
    requires RunLength(rest, f, cooldown) == n < |rest|
    requires Windows(rest[n..] + [t], cooldown) == Extended(Windows(rest[n..], cooldown), t, cooldown)
    ensures Windows([f] + (rest + [t]), cooldown) == Extended(Windows([f] + rest, cooldown), t, cooldown)
  {
    var head, tail := Window(f, rest[..n]), Windows(rest[n..], cooldown);
    assert Windows([f] + rest, cooldown) == [head] + tail by { WindowsCons(f, rest, cooldown); }
    assert Windows([f] + (rest + [t]), cooldown) == [head] + Windows(rest[n..] + [t], cooldown) by {
      RunLengthSnoc(rest, f, cooldown, t);
      WindowsCons(f, rest + [t], cooldown);
      SliceSnoc(rest, n, t);
    }
    assert tail != [];
    ExtendedCons(head, tail, t, cooldown);
  }

  lemma ExtendedCons(w: Window, ws: seq<Window>, t: int, cooldown: Option<int>)
    requires ws != []
    ensures Extended([w] + ws, t, cooldown) == [w] + Extended(ws, t, cooldown)
  {
    var n := |ws| - 1;
    assert ([w] + ws)[..n + 1] == [w] + ws[..n];
  }

  lemma RenderedExtends(ws: seq<Window>, t: int, cooldown: Option<int>)
    ensures Rendered(Extended(ws, t, cooldown)) == Handle(Rendered(ws), cooldown, t)
  {
    var n := |ws| - 1;
    var after := Extended(ws, t, cooldown);
    if ws != [] && Cooling(cooldown, Some(ws[n].fire), t) {
      assert after[..n] == ws[..n];
    } else {
      assert after[..|ws|] == ws;
      assert Render(ws) + [] == Render(ws);
    }
  }

  lemma {:induction false} HandleIsWindows(times: seq<int>, cooldown: Option<int>)
    ensures HandleAll(times, cooldown) == Rendered(Windows(times, cooldown))
  {
    if times != [] {
      var n := |times| - 1;
      HandleIsWindows(times[..n], cooldown);
      assert times == times[..n] + [times[n]];
      WindowsSnoc(times[..n], times[n], cooldown);
      RenderedExtends(Windows(times[..n], cooldown), times[n], cooldown);
    }
  }

  function Flatten(ws: seq<Window>): seq<int> {
    if ws == [] then [] else [ws[0].fire] + ws[0].swallowed + Flatten(ws[1..])
  }

  lemma FlattenCons(w: Window, ws: seq<Window>)
    ensures Flatten([w] + ws) == [w.fire] + w.swallowed + Flatten(ws)
  {
    assert ([w] + ws)[1..] == ws;
  }

  /** Windows lose and reorder nothing. */
  lemma {:induction false} WindowsPartition(times: seq<int>, cooldown: Option<int>)
    ensures Flatten(Windows(times, cooldown)) == times
    decreases |times|
  {
    if times != [] {
      var f, rest := times[0], times[1..];
      var n := RunLength(rest, f, cooldown);
      WindowsPartition(rest[n..], cooldown);
      PartitionStep(f, rest, n, cooldown);
      assert times == [f] + rest;
    }
  }

  lemma PartitionStep(f: int, rest: seq<int>, n: nat, cooldown: Option<int>)
    requires n == RunLength(rest, f, cooldown) && Flatten(Windows(rest[n..], cooldown)) == rest[n..]
    ensures Flatten(Windows([f] + rest, cooldown)) == [f] + rest
  {
    var head, tail := Window(f, rest[..n]), Windows(rest[n..], cooldown);
    assert Windows([f] + rest, cooldown) == [head] + tail by { WindowsCons(f, rest, cooldown); }
    FlattenCons(head, tail);
    Rejoin(f, rest, n);
  }

  lemma Rejoin(f: int, rest: seq<int>, n: nat)
    requires n <= |rest|
    ensures [f] + rest[..n] + rest[n..] == [f] + rest
  {
  }

  /** A window swallows only what falls inside its fire's cooldown, and the next one opens with a
      match that does not. */
  lemma {:induction false} WindowsCut(times: seq<int>, cooldown: Option<int>, k: nat)
    requires k < |Windows(times, cooldown)|
    ensures var ws := Windows(times, cooldown);
            && (forall i :: 0 <= i < |ws[k].swallowed| ==> Cooling(cooldown, Some(ws[k].fire), ws[k].swallowed[i]))
            && (k + 1 < |ws| ==> !Cooling(cooldown, Some(ws[k].fire), ws[k + 1].fire))
    decreases |times|
  {
    var rest := times[1..];
    var n := RunLength(rest, times[0], cooldown);
    var ws := Windows(times, cooldown);
    assert ws[1..] == Windows(rest[n..], cooldown);
    if k > 0 {
      WindowsCut(rest[n..], cooldown, k - 1);
    } else {
      forall i | 0 <= i < |ws[0].swallowed| ensures Cooling(cooldown, Some(ws[0].fire), ws[0].swallowed[i]) {
        assert ws[0].swallowed[i] == rest[i];
      }
      if |ws| > 1 { assert ws[1].fire == rest[n..][0] == rest[n]; }
    }
  }

  /** Window `w` lies at offset `o` of `times`. */
  predicate LiesAt(w: Window, times: seq<int>, o: nat) {
    && o + |w.swallowed| < |times| && times[o] == w.fire
    && forall i :: 0 <= i < |w.swallowed| ==> times[o + 1 + i] == w.swallowed[i]
  }

  lemma LiesLater(w: Window, first: seq<int>, times: seq<int>, o: nat)
    requires LiesAt(w, times, o)
    ensures LiesAt(w, first + times, |first| + o)
  {
    forall i | 0 <= i < |w.swallowed| ensures (first + times)[|first| + o + 1 + i] == w.swallowed[i] {
      assert (first + times)[|first| + (o + 1 + i)] == times[o + 1 + i];
    }
  }

  lemma {:induction false} WindowAt(ws: seq<Window>, k: nat) returns (o: nat)
    requires k < |ws|
    ensures LiesAt(ws[k], Flatten(ws), o)
  {
    var first := [ws[0].fire] + ws[0].swallowed;
    if k == 0 {
      o := 0;
    } else {
      o := WindowAt(ws[1..], k - 1);
      assert ws[1..][k - 1] == ws[k];
      LiesLater(ws[k], first, Flatten(ws[1..]), o);
      o := |first| + o;
    }
  }

  predicate Sorted(times: seq<int>) {
    forall i, j :: 0 <= i < j < |times| ==> times[i] <= times[j]
  }

  /** With a clock that does not go back, a window holds only matches in [fire, fire + cooldown). */
  lemma WindowInTime(times: seq<int>, gap: int, k: nat)
    requires Sorted(times) && k < |Windows(times, Some(gap))|
    ensures var w := Windows(times, Some(gap))[k];
            forall i :: 0 <= i < |w.swallowed| ==> w.fire <= w.swallowed[i] < w.fire + gap
  {
    WindowsPartition(times, Some(gap));
    WindowsCut(times, Some(gap), k);
    var o := WindowAt(Windows(times, Some(gap)), k);
  }

  /** Every later fire, and so every later match, is at least one cooldown after this fire. */
  lemma {:induction false} FiresApart(times: seq<int>, gap: int, k: nat, j: nat)
    requires Sorted(times) && gap >= 1 && k < j < |Windows(times, Some(gap))|
    ensures Windows(times, Some(gap))[j].fire >= Windows(times, Some(gap))[k].fire + gap
  {
    WindowsCut(times, Some(gap), j - 1);
    if k < j - 1 { FiresApart(times, gap, k, j - 1); }
  }

  function Fires(out: seq<Out>): nat {
    if out == [] then 0 else Fires(out[..|out| - 1]) + if out[|out| - 1].FireOut? then 1 else 0
  }

  function RowCounts(out: seq<Out>): nat {
    if out == [] then 0
    else RowCounts(out[..|out| - 1]) + if out[|out| - 1].RowOut? then out[|out| - 1].s.count else 0
  }

  function PendingCount(t: Track): nat {
    if t.pending.Some? then t.pending.value.count else 0
  }

  lemma CountsSnoc(out: seq<Out>, o: Out)
    ensures Fires(out + [o]) == Fires(out) + if o.FireOut? then 1 else 0
    ensures RowCounts(out + [o]) == RowCounts(out) + if o.RowOut? then o.s.count else 0
  {
    assert (out + [o])[..|out|] == out;
  }

  lemma HandleAccounts(t: Track, cooldown: Option<int>, now: int)
    ensures var t' := Handle(t, cooldown, now);
            Fires(t'.out) + RowCounts(t'.out) + PendingCount(t')
                == Fires(t.out) + RowCounts(t.out) + PendingCount(t) + 1
    ensures Fires(Flushed(t).out) + RowCounts(Flushed(t).out) == Fires(t.out) + RowCounts(t.out) + PendingCount(t)
  {
    if t.pending.Some? { CountsSnoc(t.out, RowOut(t.pending.value)); }
    CountsSnoc(Flushed(t).out, FireOut(now));
  }

  // ---------------------------------------------------------------- all triggers over a whole run

  /** The tracks after a run of events. */
  function RunOf(armed: seq<Trigger>, es: seq<Arrival>): (ts: seq<Track>)
    ensures |ts| == |armed|
  {
    if es == [] then seq(|armed|, i => START)
    else AfterEvent(armed, RunOf(armed, es[..|es| - 1]), es[|es| - 1])
  }

  /** Trigger `k` lets the event go on: it does not match, or it is inside its cooldown, or its run does not
      raise and neither does the flush of a pending record. */
  predicate LetsOn(armed: seq<Trigger>, ts: seq<Track>, e: Arrival, k: nat)
    requires |ts| == |armed| && k < |armed|
  {
    || k !in e.matched
    || (armed[k].cooldown.Some? && ts[k].last.Some? && e.at - ts[k].last.value < armed[k].cooldown.value)
    || (k !in e.fireFails && (k !in e.flushFails || ts[k].pending == None))
  }

  /** A match gets its turn exactly when every earlier trigger lets the event go on. */
  lemma TurnIff(armed: seq<Trigger>, ts: seq<Track>, e: Arrival, i: nat)
    requires |ts| == |armed| && i < |armed|
    ensures HasTurn(armed, ts, e, i) <==> i in e.matched && forall k :: 0 <= k < i ==> LetsOn(armed, ts, e, k)
  {
    forall k | 0 <= k < |armed| ensures LetsOn(armed, ts, e, k) <==> !TurnRaises(armed, ts, e, k) {}
    var h := Halt(armed, ts, e, 0);
    if h < |armed| { assert !LetsOn(armed, ts, e, h); }
  }

  /** A turn that a trigger had: when, and whether its flush failed. */
  datatype Had = Had(at: int, flushFailed: bool)

  /** The turns trigger `i` had, in order. */
  function TurnsOf(armed: seq<Trigger>, es: seq<Arrival>, i: nat): seq<Had>
    requires i < |armed|
  {
    if es == [] then []
    else
      var e, ts := es[|es| - 1], RunOf(armed, es[..|es| - 1]);
      TurnsOf(armed, es[..|es| - 1], i)
      + if HasTurn(armed, ts, e, i) then [Had(e.at, FlushFailed(ts[i], armed[i].cooldown, e.at, FaultOf(e, i)))] else []
  }

  function Taken(t: Track, cooldown: Option<int>, h: Had): Track {
    if h.flushFailed then t.(pending := None) else Handle(t, cooldown, h.at)
  }

  function TakeAll(hs: seq<Had>, cooldown: Option<int>): Track {
    if hs == [] then START else Taken(TakeAll(hs[..|hs| - 1], cooldown), cooldown, hs[|hs| - 1])
  }

  lemma TakeSnoc(hs: seq<Had>, h: Had, cooldown: Option<int>)
    ensures TakeAll(hs + [h], cooldown) == Taken(TakeAll(hs, cooldown), cooldown, h)
  {
    assert (hs + [h])[..|hs|] == hs;
  }

  /** After any run of events, faults included, a trigger's state and output depend on the turns it had
      and on nothing else. */
  lemma {:induction false} RunIsTurns(armed: seq<Trigger>, es: seq<Arrival>, i: nat)
    requires i < |armed|
    ensures RunOf(armed, es)[i] == TakeAll(TurnsOf(armed, es, i), armed[i].cooldown)
  {
    if es != [] {
      var front, e := es[..|es| - 1], es[|es| - 1];
      var ts := RunOf(armed, front);
      RunIsTurns(armed, front, i);
      if !HasTurn(armed, ts, e, i) {
        assert TurnsOf(armed, es, i) == TurnsOf(armed, front, i);
        return;
      }
      TakeSnoc(TurnsOf(armed, front, i), Had(e.at, FlushFailed(ts[i], armed[i].cooldown, e.at, FaultOf(e, i))),
               armed[i].cooldown);
    }
  }

  /** The times of the turns swallowed since the last fire or failed flush. */
  function Swallowed(hs: seq<Had>, cooldown: Option<int>): seq<int> {
    if hs == [] then []
    else
      var front, h := hs[..|hs| - 1], hs[|hs| - 1];
      var cooling := Cooling(cooldown, TakeAll(front, cooldown).last, h.at);
      if cooling && !h.flushFailed then Swallowed(front, cooldown) + [h.at] else []
  }

  /** The record counts `times` and holds the first and the last of them. */
  predicate Sums(s: Suppression, times: seq<int>) {
    times != [] && s.count == |times| && s.first == times[0] && s.last == times[|times| - 1]
  }

  /** After any turns the pending record sums up what has been swallowed since the last fire. */
  lemma {:induction false} PendingTells(hs: seq<Had>, cooldown: Option<int>)
    ensures var pending, times := TakeAll(hs, cooldown).pending, Swallowed(hs, cooldown);
            if pending.None? then times == [] else Sums(pending.value, times)
  {
    if hs != [] { PendingTells(hs[..|hs| - 1], cooldown); }
  }

  ghost predicate WasSwallowed(hs: seq<Had>, cooldown: Option<int>, s: Suppression) {
    exists n :: 0 <= n < |hs| && Sums(s, Swallowed(hs[..n], cooldown))
  }

  /** Every row written for a trigger sums up what some window had swallowed when it was flushed. */
  lemma {:induction false} RowsTell(hs: seq<Had>, cooldown: Option<int>, k: nat)
    requires k < |TakeAll(hs, cooldown).out| && TakeAll(hs, cooldown).out[k].RowOut?
    ensures WasSwallowed(hs, cooldown, TakeAll(hs, cooldown).out[k].s)
  {
    var front := hs[..|hs| - 1];
    var t := TakeAll(front, cooldown);
    if k < |t.out| {
      RowsTell(front, cooldown, k);
      var n :| 0 <= n < |front| && Sums(t.out[k].s, Swallowed(front[..n], cooldown));
      assert front[..n] == hs[..n];
    } else {
      PendingTells(front, cooldown);
      assert Sums(t.pending.value, Swallowed(hs[..|front|], cooldown));
    }
  }

  /** The windows of a trigger whose flushes may fail: a failed flush empties the open window. */
  function Swept(hs: seq<Had>, cooldown: Option<int>): seq<Window> {
    if hs == [] then []
    else
      var ws, h := Swept(hs[..|hs| - 1], cooldown), hs[|hs| - 1];
      if h.flushFailed then Emptied(ws) else Extended(ws, h.at, cooldown)
  }

  function Emptied(ws: seq<Window>): seq<Window> {
    if ws == [] then [] else ws[..|ws| - 1] + [ws[|ws| - 1].(swallowed := [])]
  }

  lemma RenderedEmptied(ws: seq<Window>)
    ensures Rendered(Emptied(ws)) == Rendered(ws).(pending := None)
  {
    if ws != [] { assert Emptied(ws)[..|ws| - 1] == ws[..|ws| - 1]; }
  }

  lemma {:induction false} TakeIsSwept(hs: seq<Had>, cooldown: Option<int>)
    ensures TakeAll(hs, cooldown) == Rendered(Swept(hs, cooldown))
  {
    if hs != [] {
      var front, h := hs[..|hs| - 1], hs[|hs| - 1];
      TakeIsSwept(front, cooldown);
      if h.flushFailed { RenderedEmptied(Swept(front, cooldown)); }
      else { RenderedExtends(Swept(front, cooldown), h.at, cooldown); }
    }
  }

  predicate NoneFailed(hs: seq<Had>) {
    forall k :: 0 <= k < |hs| ==> !hs[k].flushFailed
  }

  function TimesOf(hs: seq<Had>): seq<int> {
    seq(|hs|, k requires 0 <= k < |hs| => hs[k].at)
  }

  lemma {:induction false} SweptIsWindows(hs: seq<Had>, cooldown: Option<int>)
    requires NoneFailed(hs)
    ensures Swept(hs, cooldown) == Windows(TimesOf(hs), cooldown)
  {
    if hs != [] {
      var n := |hs| - 1;
      SweptIsWindows(hs[..n], cooldown);
      assert TimesOf(hs) == TimesOf(hs[..n]) + [hs[n].at];
      WindowsSnoc(TimesOf(hs[..n]), hs[n].at, cooldown);
    }
  }

  /** The driver's whole output for one trigger after any run of events, and its pending record, are
      those of the windows its turns make; and if none of its flushes failed, those are the windows cut
      from the times of its turns. */
  lemma OutputIsWindows(armed: seq<Trigger>, es: seq<Arrival>, i: nat)
    requires i < |armed|
    ensures var hs, cooldown := TurnsOf(armed, es, i), armed[i].cooldown;
            && RunOf(armed, es)[i] == Rendered(Swept(hs, cooldown))
            && (NoneFailed(hs) ==> RunOf(armed, es)[i] == Rendered(Windows(TimesOf(hs), cooldown)))
  {
    var hs := TurnsOf(armed, es, i);
    RunIsTurns(armed, es, i);
    TakeIsSwept(hs, armed[i].cooldown);
    if NoneFailed(hs) { SweptIsWindows(hs, armed[i].cooldown); }
  }

  predicate Spaced(out: seq<Out>, gap: int) {
    forall j, k :: 0 <= j < k < |out| && out[j].FireOut? && out[k].FireOut? ==> out[j].at + gap <= out[k].at
  }

  /** The last mark is at or after every fire. */
  predicate Marked(t: Track) {
    forall k :: 0 <= k < |t.out| && t.out[k].FireOut? ==> t.last.Some? && t.out[k].at <= t.last.value
  }

  lemma HandleSpaced(t: Track, gap: int, now: int)
    requires gap >= 0 && Spaced(t.out, gap) && Marked(t)
    ensures Spaced(Handle(t, Some(gap), now).out, gap) && Marked(Handle(t, Some(gap), now))
  {
    if !Cooling(Some(gap), t.last, now) {
      var f := Flushed(t);
      assert Spaced(f.out, gap) && Marked(f);
      forall k | 0 <= k < |f.out| && f.out[k].FireOut? ensures f.out[k].at + gap <= now {}
    }
  }

  lemma {:induction false} TakeSpaced(hs: seq<Had>, gap: int)
    requires gap >= 0
    ensures Spaced(TakeAll(hs, Some(gap)).out, gap) && Marked(TakeAll(hs, Some(gap)))
  {
    if hs != [] {
      TakeSpaced(hs[..|hs| - 1], gap);
      HandleSpaced(TakeAll(hs[..|hs| - 1], Some(gap)), gap, hs[|hs| - 1].at);
    }
  }

  /** In every run, faults included and whatever the clock does, a trigger's fires are at least one
      cooldown apart. */
  lemma RunSpaced(armed: seq<Trigger>, es: seq<Arrival>, i: nat, gap: int)
    requires i < |armed| && armed[i].cooldown == Some(gap) && gap >= 0
    ensures Spaced(RunOf(armed, es)[i].out, gap)
  {
    RunIsTurns(armed, es, i);
    TakeSpaced(TurnsOf(armed, es, i), gap);
  }

  /** Counts that went down with a failed flush. */
  function Lost(hs: seq<Had>, cooldown: Option<int>): nat {
    if hs == [] then 0
    else
      var front, h := hs[..|hs| - 1], hs[|hs| - 1];
      Lost(front, cooldown) + if h.flushFailed then PendingCount(TakeAll(front, cooldown)) else 0
  }

  /** Turns that ended in a failed flush: neither a fire nor a suppression. */
  function Failed(hs: seq<Had>): nat {
    if hs == [] then 0 else Failed(hs[..|hs| - 1]) + if hs[|hs| - 1].flushFailed then 1 else 0
  }

  lemma {:induction false} FailedNone(hs: seq<Had>, cooldown: Option<int>)
    ensures Failed(hs) == 0 <==> NoneFailed(hs)
    ensures Failed(hs) == 0 ==> Lost(hs, cooldown) == 0
  {
    if hs != [] {
      FailedNone(hs[..|hs| - 1], cooldown);
      assert hs == hs[..|hs| - 1] + [hs[|hs| - 1]];
    }
  }

  /** Every turn is a fire, part of a written row's count, pending, lost with a failed flush, or the turn
      of that flush. */
  lemma {:induction false} TurnsAccounted(hs: seq<Had>, cooldown: Option<int>)
    ensures var t := TakeAll(hs, cooldown);
            |hs| == Fires(t.out) + RowCounts(t.out) + PendingCount(t) + Lost(hs, cooldown) + Failed(hs)
  {
    if hs != [] {
      var front, h := hs[..|hs| - 1], hs[|hs| - 1];
      TurnsAccounted(front, cooldown);
      HandleAccounts(TakeAll(front, cooldown), cooldown, h.at);
    }
  }

  function Matches(es: seq<Arrival>, i: nat): nat {
    if es == [] then 0 else Matches(es[..|es| - 1], i) + if i in es[|es| - 1].matched then 1 else 0
  }

  /** Matches that an earlier trigger's exception took away. */
  function Starved(armed: seq<Trigger>, es: seq<Arrival>, i: nat): nat {
    if es == [] then 0
    else
      var e, ts := es[|es| - 1], RunOf(armed, es[..|es| - 1]);
      Starved(armed, es[..|es| - 1], i) + if i in e.matched && !HasTurn(armed, ts, e, i) then 1 else 0
  }

  lemma {:induction false} MatchesSplit(armed: seq<Trigger>, es: seq<Arrival>, i: nat)
    requires i < |armed|
    ensures Matches(es, i) == |TurnsOf(armed, es, i)| + Starved(armed, es, i)
  {
    if es != [] { MatchesSplit(armed, es[..|es| - 1], i); }
  }

  /** In every run of events every match of a trigger is a fire, part of a written row's count, pending,
      lost with a failed flush, the turn of that flush, or was taken away by an earlier trigger. */
  lemma MatchesAccounted(armed: seq<Trigger>, es: seq<Arrival>, i: nat)
    requires i < |armed|
    ensures var t, hs := RunOf(armed, es)[i], TurnsOf(armed, es, i);
            Matches(es, i) == Fires(t.out) + RowCounts(t.out) + PendingCount(t)
                              + Lost(hs, armed[i].cooldown) + Failed(hs) + Starved(armed, es, i)
  {
    RunIsTurns(armed, es, i);
    MatchesSplit(armed, es, i);
    TurnsAccounted(TurnsOf(armed, es, i), armed[i].cooldown);
  }

  /** Event `k` does trigger `i` no harm: if it matches, no earlier trigger raises on it, and no flush of
      a pending record fails in its own turn. */
  predicate Harmless(armed: seq<Trigger>, es: seq<Arrival>, i: nat, k: nat)
    requires i < |armed| && k < |es|
  {
    var ts := RunOf(armed, es[..k]);
    i in es[k].matched ==>
      HasTurn(armed, ts, es[k], i) && !FlushFailed(ts[i], armed[i].cooldown, es[k].at, FaultOf(es[k], i))
  }

  predicate Undisturbed(armed: seq<Trigger>, es: seq<Arrival>, i: nat)
    requires i < |armed|
  {
    forall k :: 0 <= k < |es| ==> Harmless(armed, es, i, k)
  }

  lemma UndisturbedSnoc(armed: seq<Trigger>, es: seq<Arrival>, i: nat)
    requires i < |armed| && es != []
    ensures Undisturbed(armed, es, i)
       <==> Undisturbed(armed, es[..|es| - 1], i) && Harmless(armed, es, i, |es| - 1)
  {
    var front := es[..|es| - 1];
    forall k | 0 <= k < |front| ensures Harmless(armed, es, i, k) <==> Harmless(armed, front, i, k) {
      assert front[..k] == es[..k];
    }
  }

  lemma {:induction false} UndisturbedIff(armed: seq<Trigger>, es: seq<Arrival>, i: nat)
    requires i < |armed|
    ensures Undisturbed(armed, es, i) <==> Failed(TurnsOf(armed, es, i)) == 0 && Starved(armed, es, i) == 0
  {
    if es != [] {
      var front, e := es[..|es| - 1], es[|es| - 1];
      var ts := RunOf(armed, front);
      UndisturbedIff(armed, front, i);
      UndisturbedSnoc(armed, es, i);
      if !HasTurn(armed, ts, e, i) { assert TurnsOf(armed, es, i) == TurnsOf(armed, front, i); }
      FailedSnoc(TurnsOf(armed, front, i), Had(e.at, FlushFailed(ts[i], armed[i].cooldown, e.at, FaultOf(e, i))));
    }
  }

  lemma FailedSnoc(hs: seq<Had>, h: Had)
    ensures Failed(hs + [h]) == Failed(hs) + if h.flushFailed then 1 else 0
  {
    assert (hs + [h])[..|hs|] == hs;
  }

  /** Matches = fires + counts in rows + pending holds of a run exactly when every event was harmless. */
  lemma AccountedIff(armed: seq<Trigger>, es: seq<Arrival>, i: nat)
    requires i < |armed|
    ensures var t := RunOf(armed, es)[i];
            Matches(es, i) == Fires(t.out) + RowCounts(t.out) + PendingCount(t) <==> Undisturbed(armed, es, i)
  {
    MatchesAccounted(armed, es, i);
    UndisturbedIff(armed, es, i);
    FailedNone(TurnsOf(armed, es, i), armed[i].cooldown);
  }

  /** After `stop` nothing is pending for a trigger and fires and rows account for all its matches,
      exactly when every event was harmless and the shutdown flush did not lose or skip its record. */
  lemma ShutdownAccounted(armed: seq<Trigger>, es: seq<Arrival>, i: nat, fate: Fate)
    requires i < |armed|
    ensures var before := RunOf(armed, es)[i]; var t := Ended(before, fate);
            (t.pending.None? && Matches(es, i) == Fires(t.out) + RowCounts(t.out)) <==>
            (Undisturbed(armed, es, i) && (before.pending.None? || fate.Written?))
  {
    var before := RunOf(armed, es)[i];
    AccountedIff(armed, es, i);
    MatchesAccounted(armed, es, i);
    HandleAccounts(before, armed[i].cooldown, 0);
    RunIsTurns(armed, es, i);
    PendingPositive(TurnsOf(armed, es, i), armed[i].cooldown);
  }

  lemma {:induction false} PendingPositive(hs: seq<Had>, cooldown: Option<int>)
    ensures TakeAll(hs, cooldown).pending.Some? ==> PendingCount(TakeAll(hs, cooldown)) > 0
  {
    if hs != [] { PendingPositive(hs[..|hs| - 1], cooldown); }
  }

  lemma OneTrigger(t: Trigger, x: Track, e: Arrival)
    requires 0 in e.matched
    ensures AfterEvent([t], [x], e) == [Turn(x, t.cooldown, e.at, FaultOf(e, 0))]
  {
  }

  /** The shortest run that loses matches: a fire, a suppressed match, and a match whose flush fails. Three
      matches, one fire, no row, nothing pending. */
  lemma FailedFlushLoses(t: Trigger, gap: int, es: seq<Arrival>)
    requires t.cooldown == Some(gap) && gap > 1 && |es| == 3 && FaultOf(es[2], 0).flush
    requires es[0].at == 0 && es[1].at == 1 && es[2].at == 2 * gap
    requires forall k :: 0 <= k < 3 ==> 0 in es[k].matched
    ensures var track := RunOf([t], es)[0];
            Matches(es, 0) == 3 && track == Track(Some(0), None, [FireOut(0)])
    ensures !Undisturbed([t], es, 0)
  {
    assert es[..0] == [] && es[..3] == es && RunOf([t], []) == [START];
    var first := Track(Some(0), None, [FireOut(0)]);
    RunSnoc([t], es, 0, 0);
    assert RunOf([t], es[..1]) == [first] by {
      assert [] + [FireOut(0)] == [FireOut(0)];
      OneTrigger(t, START, es[0]);
    }
    RunSnoc([t], es, 1, 0);
    OneTrigger(t, first, es[1]);
    var second := first.(pending := Some(Suppression(1, 1, 1)));
    assert RunOf([t], es[..2]) == [second];
    RunSnoc([t], es, 2, 0);
    OneTrigger(t, second, es[2]);
    AccountedIff([t], es, 0);
    CountsSnoc([], FireOut(0));
    assert [] + [FireOut(0)] == [FireOut(0)];
  }

  lemma RunSnoc(armed: seq<Trigger>, es: seq<Arrival>, k: nat, i: nat)
    requires k < |es|
    ensures RunOf(armed, es[..k + 1]) == AfterEvent(armed, RunOf(armed, es[..k]), es[k])
    ensures Matches(es[..k + 1], i) == Matches(es[..k], i) + if i in es[k].matched then 1 else 0
  {
    assert es[..k + 1][..k] == es[..k];
  }
}
