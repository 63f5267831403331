/** The personal-facts table: one row per key, a confidence ratchet, one audit row per change. */
module FactsStore {
  import opened Prelude
  import opened AuditClamp
  import opened AuditLog

  datatype FactRow = FactRow(id: int, key: string, value: string, confidence: real,
                             firstSeen: int, lastConfirmed: int, source: Option<int>)

  /** What the rest of the system reads off a row. */
  datatype Belief = Belief(value: string, confidence: real, source: Option<int>)
  type Beliefs = map<string, Belief>

  datatype Write = Write(key: string, value: string, confidence: real, source: Option<int>)

  // ---------------------------------------------------------------- the table as rows

  function Find(rows: seq<FactRow>, key: string): (i: Option<nat>)
    ensures i.Some? ==> i.value < |rows| && rows[i.value].key == key
    ensures i.None? ==> forall j :: 0 <= j < |rows| ==> rows[j].key != key
  {
    if rows == [] then None
    else
      var front := Find(rows[..|rows| - 1], key);
      if front.Some? then front
      else if rows[|rows| - 1].key == key then Some(|rows| - 1)
      else None
  }

  /** The id the database gives the next inserted row. */
  function NewId(rows: seq<FactRow>): (n: int)
    ensures forall r :: r in rows ==> r.id < n
  {
    if rows == [] then 1
    else
      var front := NewId(rows[..|rows| - 1]);
      var last := rows[|rows| - 1];
      assert rows == rows[..|rows| - 1] + [last];
      if last.id >= front then last.id + 1 else front
  }

  /** At most one row per key, and ids identify rows. */
  ghost predicate Unique(rows: seq<FactRow>) {
    forall i, j :: 0 <= i < j < |rows| ==> rows[i].key != rows[j].key && rows[i].id != rows[j].id
  }

  function BeliefOf(r: FactRow): Belief {
    Belief(r.value, r.confidence, r.source)
  }

  function View(rows: seq<FactRow>): Beliefs {
    map k | k in (set r | r in rows :: r.key) && Find(rows, k).Some? :: BeliefOf(rows[Find(rows, k).value])
  }

  lemma ViewOf(rows: seq<FactRow>, i: nat)
    requires Unique(rows) && i < |rows|
    ensures Find(rows, rows[i].key) == Some(i)
    ensures rows[i].key in View(rows) && View(rows)[rows[i].key] == BeliefOf(rows[i])
  {
    var f := Find(rows, rows[i].key);
    assert f.Some?;
    assert rows[i] in rows;
  }

  lemma ViewKeys(rows: seq<FactRow>, key: string)
    ensures key in View(rows) <==> Find(rows, key).Some?
    ensures key in View(rows) ==> exists i :: 0 <= i < |rows| && rows[i].key == key
  {
    var f := Find(rows, key);
    if f.Some? { assert rows[f.value] in rows; }
  }

  // ---------------------------------------------------------------- the table as beliefs

  /** The effect of one upsert on what is believed. */
  function Put(b: Beliefs, w: Write): Beliefs {
    b[w.key :=
      if w.key in b && b[w.key].value == w.value
      then Belief(w.value, MaxReal(b[w.key].confidence, w.confidence), w.source)
      else Belief(w.value, w.confidence, w.source)]
  }

  /** The audit event one upsert emits. */
  function PutEvent(b: Beliefs, w: Write): Event {
    if w.key !in b then FactAdded(w.key, w.value, w.confidence, w.source)
    else if b[w.key].value == w.value then
      FactConfirmed(w.key, w.value, MaxReal(b[w.key].confidence, w.confidence), w.source)
    else FactUpdated(w.key, b[w.key].value, w.value, w.confidence, w.source)
  }

  function Upserted(rows: seq<FactRow>, w: Write, now: int): seq<FactRow> {
    var i := Find(rows, w.key);
    if i.None? then rows + [FactRow(NewId(rows), w.key, w.value, w.confidence, now, now, w.source)]
    else
      var r := rows[i.value];
      rows[i.value := if r.value == w.value
                      then r.(confidence := MaxReal(r.confidence, w.confidence), lastConfirmed := now,
                             source := w.source)
                      else r.(value := w.value, confidence := w.confidence, lastConfirmed := now, source := w.source)]
  }

  /** Each row shows its key and belief in `b`. */
  ghost predicate Shows(rows: seq<FactRow>, b: Beliefs) {
    forall i :: 0 <= i < |rows| ==> rows[i].key in b && b[rows[i].key] == BeliefOf(rows[i])
  }

  ghost predicate Backed(rows: seq<FactRow>, k: string) {
    exists i :: 0 <= i < |rows| && rows[i].key == k
  }

  lemma ViewShows(rows: seq<FactRow>)
    requires Unique(rows)
    ensures Shows(rows, View(rows))
    ensures forall k :: k in View(rows) ==> Backed(rows, k)
  {
    forall i | 0 <= i < |rows|
      ensures rows[i].key in View(rows) && View(rows)[rows[i].key] == BeliefOf(rows[i])
    {
      ViewOf(rows, i);
    }
    forall k | k in View(rows) ensures Backed(rows, k) { ViewKeys(rows, k); }
  }

  lemma ViewIs(rows: seq<FactRow>, b: Beliefs)
    requires Unique(rows) && Shows(rows, b)
    requires forall k :: k in b ==> Backed(rows, k)
    ensures View(rows) == b
  {
    ViewShows(rows);
    forall k ensures k in View(rows) <==> k in b
             ensures k in b ==> View(rows)[k] == b[k] {
      if k in View(rows) || k in b {
        assert Backed(rows, k);
        var i :| 0 <= i < |rows| && rows[i].key == k;
      }
    }
  }

  /** Replacing a row by one with the same key and id. */
  lemma SetView(rows: seq<FactRow>, i: nat, r: FactRow)
    requires Unique(rows) && i < |rows| && r.key == rows[i].key && r.id == rows[i].id
    ensures Unique(rows[i := r])
    ensures View(rows[i := r]) == View(rows)[r.key := BeliefOf(r)]
  {
    ViewShows(rows);
    var after := rows[i := r];
    var b := View(rows)[r.key := BeliefOf(r)];
    assert Shows(after, b);
    forall k | k in b ensures Backed(after, k) {
      if k == r.key { assert after[i].key == k; }
      else {
        assert Backed(rows, k);
        var j :| 0 <= j < |rows| && rows[j].key == k;
        assert after[j].key == k;
      }
    }
    ViewIs(after, b);
  }

  /** Adding a row under a new key and a new id. */
  lemma AddView(rows: seq<FactRow>, r: FactRow)
    requires Unique(rows)
    requires forall j :: 0 <= j < |rows| ==> rows[j].key != r.key && rows[j].id != r.id
    ensures Unique(rows + [r])
    ensures View(rows + [r]) == View(rows)[r.key := BeliefOf(r)]
  {
    ViewShows(rows);
    var after := rows + [r];
    var b := View(rows)[r.key := BeliefOf(r)];
    assert Shows(after, b);
    forall k | k in b ensures Backed(after, k) {
      if k == r.key { assert after[|rows|].key == k; }
      else {
        assert Backed(rows, k);
        var j :| 0 <= j < |rows| && rows[j].key == k;
        assert after[j].key == k;
      }
    }
    ViewIs(after, b);
  }

  lemma UpsertedView(rows: seq<FactRow>, w: Write, now: int)
    requires Unique(rows)
    ensures Unique(Upserted(rows, w, now))
    ensures View(Upserted(rows, w, now)) == Put(View(rows), w)
  {
    ViewKeys(rows, w.key);
    var i := Find(rows, w.key);
    if i.None? {
      forall j | 0 <= j < |rows| ensures rows[j].id < NewId(rows) { assert rows[j] in rows; }
      AddView(rows, FactRow(NewId(rows), w.key, w.value, w.confidence, now, now, w.source));
    } else {
      ViewOf(rows, i.value);
      SetView(rows, i.value, Upserted(rows, w, now)[i.value]);
    }
  }

  /** Every row keeps its place, identity and first sighting; only the written key's row changes, and a new
      one comes last, under a new id. */
  ghost predicate HistoryKept(before: seq<FactRow>, after: seq<FactRow>, w: Write, now: int) {
    && |before| <= |after| <= |before| + 1
    && (|after| > |before| ==>
          var r := after[|before|];
          && r.key == w.key && r.firstSeen == now && r.lastConfirmed == now
          && forall i :: 0 <= i < |before| ==> before[i].id < r.id)
    && forall i :: 0 <= i < |before| ==>
         && after[i].id == before[i].id && after[i].key == before[i].key
         && after[i].firstSeen == before[i].firstSeen
         && (before[i].key == w.key ==> after[i].lastConfirmed == now)
         && (before[i].key != w.key ==> after[i] == before[i])
  }

  lemma UpsertKeepsHistory(rows: seq<FactRow>, w: Write, now: int)
    requires Unique(rows)
    ensures HistoryKept(rows, Upserted(rows, w, now), w, now)
  {
    forall i | 0 <= i < |rows| && rows[i].key == w.key ensures Find(rows, w.key) == Some(i) {
      ViewOf(rows, i);
    }
    forall i | 0 <= i < |rows| ensures rows[i].id < NewId(rows) { assert rows[i] in rows; }
  }

  function Removed(rows: seq<FactRow>, i: nat): seq<FactRow>
    requires i < |rows|
  {
    rows[..i] + rows[i + 1..]
  }

  lemma RemovedUnique(rows: seq<FactRow>, i: nat)
    requires Unique(rows) && i < |rows|
    ensures Unique(Removed(rows, i))
  {
    var after := Removed(rows, i);
    forall p, q | 0 <= p < q < |after| ensures after[p].key != after[q].key && after[p].id != after[q].id {
      var p', q' := if p < i then p else p + 1, if q < i then q else q + 1;
      assert after[p] == rows[p'] && after[q] == rows[q'];
    }
  }

  lemma RemovedBacked(rows: seq<FactRow>, i: nat, k: string)
    requires i < |rows| && k != rows[i].key && Backed(rows, k)
    ensures Backed(Removed(rows, i), k)
  {
    var after := Removed(rows, i);
    var j :| 0 <= j < |rows| && rows[j].key == k;
    if j < i { assert after[j] == rows[j]; } else { assert after[j - 1] == rows[j]; }
  }

  lemma RemovedShows(rows: seq<FactRow>, i: nat, b: Beliefs)
    requires Unique(rows) && i < |rows| && Shows(rows, b)
    ensures Shows(Removed(rows, i), b - {rows[i].key})
  {
    var after := Removed(rows, i);
    forall j | 0 <= j < |after| ensures after[j].key in b - {rows[i].key} && b[after[j].key] == BeliefOf(after[j]) {
      var j' := if j < i then j else j + 1;
      assert after[j] == rows[j'];
      assert rows[j'].key != rows[i].key;
    }
  }

  lemma RemovedView(rows: seq<FactRow>, i: nat)
    requires Unique(rows) && i < |rows|
    ensures Unique(Removed(rows, i))
    ensures View(Removed(rows, i)) == View(rows) - {rows[i].key}
  {
    ViewShows(rows);
    var b := View(rows) - {rows[i].key};
    RemovedUnique(rows, i);
    RemovedShows(rows, i, View(rows));
    forall k | k in b ensures Backed(Removed(rows, i), k) { RemovedBacked(rows, i, k); }
    ViewIs(Removed(rows, i), b);
  }

  // ---------------------------------------------------------------- the code

  /** Where, if anywhere, one store call is cut short by an exception. */
  datatype Fault = NoFault | ReadFails | WriteFails | AuditFails | OverlayFails

  class FactsStore {
    var rows: seq<FactRow>
    const audit: AuditLogger

    ghost predicate Valid()
      reads this
    {
      Unique(rows)
    }

    constructor (audit: AuditLogger)
      ensures Valid() && rows == [] && this.audit == audit
    {
      rows := [];
      this.audit := audit;
    }

    method Get(key: string) returns (r: Option<FactRow>)
      requires Valid()
      ensures r.Some? <==> key in View(rows)
      ensures r.Some? ==> r.value in rows && r.value.key == key && BeliefOf(r.value) == View(rows)[key]
    {
      ViewKeys(rows, key);
      var i := Find(rows, key);
      r := if i.None? then None else Some(rows[i.value]);
    }

    /** Insert or update one fact. `None` is an exception: before the table write nothing has
        changed; between the table write and the audit write only the table has. */
    method Upsert(w: Write, now: int, fault: Fault) returns (r: Option<FactRow>)
      requires Valid()
      modifies this, audit
      ensures Valid()
      ensures fault.ReadFails? || fault.WriteFails? ==> r.None? && rows == old(rows) && audit.log == old(audit.log)
      ensures !fault.ReadFails? && !fault.WriteFails? ==>
                HistoryKept(old(rows), rows, w, now) && View(rows) == Put(old(View(rows)), w)
      ensures fault.AuditFails? ==> r.None? && audit.log == old(audit.log)
      ensures fault.NoFault? || fault.OverlayFails? ==>
                && audit.log == Appended(old(audit.log), [PutEvent(old(View(rows)), w)], audit.maxChars)
                && r.Some? && r.value in rows && r.value.key == w.key
                && BeliefOf(r.value) == View(rows)[w.key]
    {
      if fault.ReadFails? || fault.WriteFails? { return None; }
      ViewKeys(rows, w.key);
      UpsertedView(rows, w, now);
      UpsertKeepsHistory(rows, w, now);
      var i := Find(rows, w.key);
      if i.None? {
        var fresh' := FactRow(NewId(rows), w.key, w.value, w.confidence, now, now, w.source);
        rows := rows + [fresh'];
        ViewOf(rows, |rows| - 1);
        var id := audit.Record(FactAdded(w.key, w.value, w.confidence, w.source), fault.AuditFails?);
        if id.None? { return None; }
        return Some(fresh');
      }
      var existing := rows[i.value];
      ViewOf(rows, i.value);
      if existing.value == w.value {
        var ratchet := if w.confidence > existing.confidence then w.confidence else existing.confidence;
        var confirmed := existing.(confidence := ratchet, lastConfirmed := now, source := w.source);
        rows := rows[i.value := confirmed];
        ViewOf(rows, i.value);
        var id := audit.Record(FactConfirmed(w.key, w.value, ratchet, w.source), fault.AuditFails?);
        if id.None? { return None; }
        return Some(confirmed);
      }
      var replaced := existing.(value := w.value, confidence := w.confidence, lastConfirmed := now, source := w.source);
      rows := rows[i.value := replaced];
      ViewOf(rows, i.value);
      var id := audit.Record(FactUpdated(w.key, existing.value, w.value, w.confidence, w.source), fault.AuditFails?);
      if id.None? { return None; }
      return Some(replaced);
    }

    /** Delete by key, as the system or the operator asks; the row removed is the one with that key. */
    method DeleteWith(key: string, e: Event, fault: Fault) returns (removed: Option<bool>)
      requires Valid()
      modifies this, audit
      ensures Valid()
      ensures fault.ReadFails? ==> removed.None? && rows == old(rows) && audit.log == old(audit.log)
      ensures !fault.ReadFails? && key !in old(View(rows)) ==>
                removed == Some(false) && rows == old(rows) && audit.log == old(audit.log)
      ensures fault.WriteFails? && key in old(View(rows)) ==>
                removed.None? && rows == old(rows) && audit.log == old(audit.log)
      ensures !fault.ReadFails? && !fault.WriteFails? ==> View(rows) == old(View(rows)) - {key}
      ensures fault.AuditFails? && key in old(View(rows)) ==> removed.None? && audit.log == old(audit.log)
      ensures (fault.NoFault? || fault.OverlayFails?) && key in old(View(rows)) ==>
                removed == Some(true) && audit.log == Appended(old(audit.log), [e], audit.maxChars)
    {
      if fault.ReadFails? { return None; }
      ViewKeys(rows, key);
      var i := Find(rows, key);
      if i.None? { return Some(false); }
      if fault.WriteFails? { return None; }
      RemovedView(rows, i.value);
      rows := Removed(rows, i.value);
      var id := audit.Record(e, fault.AuditFails?);
      removed := if id.None? then None else Some(true);
    }

    method Delete(key: string, reason: string, fault: Fault) returns (removed: Option<bool>)
      requires Valid()
      modifies this, audit
      ensures Valid()
      ensures fault.ReadFails? || fault.WriteFails? ==> rows == old(rows) && audit.log == old(audit.log)
      ensures fault.AuditFails? ==>
                View(rows) == Applied(old(View(rows)), DeleteOp(key, reason)) && audit.log == old(audit.log)
      ensures fault.NoFault? ==>
                && View(rows) == Applied(old(View(rows)), DeleteOp(key, reason))
                && audit.log == Appended(old(audit.log), Emitted(old(View(rows)), DeleteOp(key, reason)),
                    audit.maxChars)
                && removed == Some(key in old(View(rows)))
    {
      var existing := Get(key);
      var prior := if existing.Some? then existing.value.value else "";
      removed := DeleteWith(key, FactDeleted(key, prior, reason), fault);
    }

    method UserDelete(key: string, fault: Fault) returns (removed: Option<bool>)
      requires Valid()
      modifies this, audit
      ensures Valid()
      ensures fault.ReadFails? || fault.WriteFails? ==> rows == old(rows) && audit.log == old(audit.log)
      ensures fault.AuditFails? ==>
                View(rows) == Applied(old(View(rows)), UserDeleteOp(key)) && audit.log == old(audit.log)
      ensures fault.NoFault? ==>
                && View(rows) == Applied(old(View(rows)), UserDeleteOp(key))
                && audit.log == Appended(old(audit.log), Emitted(old(View(rows)), UserDeleteOp(key)), audit.maxChars)
                && removed == Some(key in old(View(rows)))
    {
      var existing := Get(key);
      var prior := if existing.Some? then existing.value.value else "";
      removed := DeleteWith(key, UserDeleted(key, prior), fault);
    }

    /** An operator edit is an upsert without a source row, then a second, overlay audit row. */
    method UserEdit(key: string, value: string, confidence: real, now: int, fault: Fault) returns (r: Option<FactRow>)
      requires Valid()
      modifies this, audit
      ensures Valid()
      ensures fault.ReadFails? || fault.WriteFails? ==> r.None? && rows == old(rows) && audit.log == old(audit.log)
      ensures !fault.ReadFails? && !fault.WriteFails? ==>
                View(rows) == Applied(old(View(rows)), UserEditOp(key, value, confidence))
      ensures fault.AuditFails? ==> r.None? && audit.log == old(audit.log)
      ensures fault.OverlayFails? ==> r.None?
      ensures fault.OverlayFails? ==>
                audit.log == Appended(old(audit.log),
                    [PutEvent(old(View(rows)), Write(key, value, confidence, None))], audit.maxChars)
      ensures fault.NoFault? ==>
                && audit.log == Appended(old(audit.log),
                    Emitted(old(View(rows)), UserEditOp(key, value, confidence)), audit.maxChars)
                && r.Some? && BeliefOf(r.value) == View(rows)[key]
    {
      ghost var before := View(rows);
      var w := Write(key, value, confidence, None);
      r := Upsert(w, now, fault);
      if r.None? { return None; }
      AppendedSnoc(old(audit.log), [PutEvent(before, w)], UserEdited(key, value, confidence), audit.maxChars);
      assert [PutEvent(before, w)] + [UserEdited(key, value, confidence)]
          == [PutEvent(before, w), UserEdited(key, value, confidence)];
      var id := audit.Record(UserEdited(key, value, confidence), fault.OverlayFails?);
      if id.None? { return None; }
    }
  }

  // ---------------------------------------------------------------- runs of store calls

  datatype Op =
    | UpsertOp(w: Write)
    | DeleteOp(key: string, reason: string)
    | UserEditOp(key: string, value: string, confidence: real)
    | UserDeleteOp(key: string)

  function Applied(b: Beliefs, op: Op): Beliefs {
    match op
    case UpsertOp(w) => Put(b, w)
    case DeleteOp(k, _) => b - {k}
    case UserEditOp(k, v, c) => Put(b, Write(k, v, c, None))
    case UserDeleteOp(k) => b - {k}
  }

  function Emitted(b: Beliefs, op: Op): seq<Event> {
    match op
    case UpsertOp(w) => [PutEvent(b, w)]
    case DeleteOp(k, reason) => if k in b then [FactDeleted(k, b[k].value, reason)] else []
    case UserEditOp(k, v, c) => [PutEvent(b, Write(k, v, c, None)), UserEdited(k, v, c)]
    case UserDeleteOp(k) => if k in b then [UserDeleted(k, b[k].value)] else []
  }

  function RunOps(b: Beliefs, ops: seq<Op>): Beliefs {
    if ops == [] then b else Applied(RunOps(b, ops[..|ops| - 1]), ops[|ops| - 1])
  }

  function RunEvents(b: Beliefs, ops: seq<Op>): seq<Event> {
    if ops == [] then []
    else RunEvents(b, ops[..|ops| - 1]) + Emitted(RunOps(b, ops[..|ops| - 1]), ops[|ops| - 1])
  }

  /** What the audit row of an upsert says: a new fact, the same value again with the confidence now stored,
      or both the value that was stored and the new one. */
  lemma PutTells(b: Beliefs, w: Write)
    ensures var e, after := PutEvent(b, w), Put(b, w)[w.key];
            var closing := [Entry("confidence", Scalar(Number(after.confidence))),
                            Entry("source_audit_id",
                                  Scalar(if w.source.Some? then Number(w.source.value as real) else Null))];
            if w.key in b && b[w.key].value != w.value then
              && TypeOf(e) == "memory.fact.updated"
              && PayloadOf(e) == Dict([Entry("key", Str(w.key)), Entry("old_value", Str(b[w.key].value)),
                                       Entry("new_value", Str(w.value))] + closing)
            else
              && TypeOf(e) == (if w.key in b then "memory.fact.confirmed" else "memory.fact.added")
              && PayloadOf(e) == Dict([Entry("key", Str(w.key)), Entry("value", Str(w.value))] + closing)
  {
  }

  /** What the other calls log: a deletion the value that was stored, and nothing if there was none; an
      operator's edit the upsert's row and then its own. */
  lemma OpTells(b: Beliefs, op: Op)
    ensures match op
            case UpsertOp(w) => Emitted(b, op) == [PutEvent(b, w)]
            case DeleteOp(k, reason) =>
              if k !in b then Emitted(b, op) == []
              else
                && |Emitted(b, op)| == 1 && TypeOf(Emitted(b, op)[0]) == "memory.fact.deleted"
                && PayloadOf(Emitted(b, op)[0]) == Dict([Entry("key", Str(k)), Entry("value", Str(b[k].value)),
                                                         Entry("reason", Str(reason))])
            case UserDeleteOp(k) =>
              if k !in b then Emitted(b, op) == []
              else
                && |Emitted(b, op)| == 1 && TypeOf(Emitted(b, op)[0]) == "memory.fact.user_deleted"
                && PayloadOf(Emitted(b, op)[0]) == Dict([Entry("key", Str(k)), Entry("value", Str(b[k].value))])
            case UserEditOp(k, v, c) =>
              && |Emitted(b, op)| == 2 && Emitted(b, op)[0] == PutEvent(b, Write(k, v, c, None))
              && TypeOf(Emitted(b, op)[1]) == "memory.fact.user_edited"
              && PayloadOf(Emitted(b, op)[1]) == Dict([Entry("key", Str(k)), Entry("value", Str(v)),
                                                       Entry("confidence", Scalar(Number(c)))])
  {
  }

  // ---------------------------------------------------------------- replaying the audit log

  datatype Replayed = Replayed(value: string, confidence: real)

  /** One audit row read back; operator overlays and unrelated rows carry no table change. */
  function ReplayOne(m: map<string, Replayed>, e: Event): map<string, Replayed> {
    match e
    case FactAdded(k, v, c, _) => m[k := Replayed(v, c)]
    case FactConfirmed(k, v, c, _) => m[k := Replayed(v, c)]
    case FactUpdated(k, _, v, c, _) => m[k := Replayed(v, c)]
    case FactDeleted(k, _, _) => m - {k}
    case UserDeleted(k, _) => m - {k}
    case _ => m
  }

  function Replay(es: seq<Event>): map<string, Replayed> {
    if es == [] then map[] else ReplayOne(Replay(es[..|es| - 1]), es[|es| - 1])
  }

  function Summary(b: Beliefs): map<string, Replayed> {
    map k | k in b :: Replayed(b[k].value, b[k].confidence)
  }

  lemma ReplaySnoc(es: seq<Event>, e: Event)
    ensures Replay(es + [e]) == ReplayOne(Replay(es), e)
  {
    assert (es + [e])[..|es|] == es;
  }

  /** The log keeps `s` as it is. */
  predicate Fits(s: string, maxChars: int) {
    Clip(s, maxChars) == s
  }

  /** That is: clamping is off, or `s` is short enough, or it happens to be the very marker it would be
      cut to. */
  lemma FitsIff(s: string, maxChars: int)
    ensures Fits(s, maxChars) <==> maxChars <= 0 || |s| <= maxChars || s == Marker(|s|)
  {
    if maxChars > 0 && |s| > maxChars {
      var marker := Marker(|s|);
      var keep := if maxChars < |marker| then 0 else maxChars - |marker|;
      assert Clip(s, maxChars) == s[..keep] + marker;
      assert keep > 0 ==> |Clip(s, maxChars)| == maxChars;
    }
  }

  /** The keys and values that reach the table through `op` survive the audit clamp. */
  predicate OpFits(op: Op, maxChars: int) {
    match op
    case UpsertOp(w) => Fits(w.key, maxChars) && Fits(w.value, maxChars)
    case UserEditOp(k, v, _) => Fits(k, maxChars) && Fits(v, maxChars)
    case _ => true
  }

  predicate AllFit(ops: seq<Op>, maxChars: int) {
    ops == [] || (AllFit(ops[..|ops| - 1], maxChars) && OpFits(ops[|ops| - 1], maxChars))
  }

  ghost predicate Agrees(ops: seq<Op>, maxChars: int) {
    Replay(ClipAll(RunEvents(map[], ops), maxChars)) == Summary(RunOps(map[], ops))
  }

  ghost predicate KeysFit(b: Beliefs, maxChars: int) {
    forall k :: k in b ==> Fits(k, maxChars)
  }

  /** A clipped upsert row still carries the whole new state of its key. */
  lemma ReplayPut(m: map<string, Replayed>, b: Beliefs, w: Write, maxChars: int)
    ensures ReplayOne(m, ClipEvent(PutEvent(b, w), maxChars))
         == m[Clip(w.key, maxChars) := Replayed(Clip(w.value, maxChars), Put(b, w)[w.key].confidence)]
  {
  }

  lemma ReplayEmitted(es: seq<Event>, b: Beliefs, op: Op, maxChars: int)
    ensures match op {
              case UpsertOp(w) =>
                Replay(ClipAll(es + Emitted(b, op), maxChars))
                == ReplayOne(Replay(ClipAll(es, maxChars)), ClipEvent(PutEvent(b, w), maxChars))
              case UserEditOp(k, v, c) =>
                Replay(ClipAll(es + Emitted(b, op), maxChars))
                == ReplayOne(Replay(ClipAll(es, maxChars)), ClipEvent(PutEvent(b, Write(k, v, c, None)), maxChars))
              case DeleteOp(k, _) =>
                Replay(ClipAll(es + Emitted(b, op), maxChars))
                == if k in b then Replay(ClipAll(es, maxChars)) - {Clip(k, maxChars)} else Replay(ClipAll(es, maxChars))
              case UserDeleteOp(k) =>
                Replay(ClipAll(es + Emitted(b, op), maxChars))
                == if k in b then Replay(ClipAll(es, maxChars)) - {Clip(k, maxChars)} else Replay(ClipAll(es, maxChars))
            }
  {
    match op
    case UpsertOp(w) => ReplayAfter(es, PutEvent(b, w), maxChars);
    case UserEditOp(k, v, c) =>
      var put := PutEvent(b, Write(k, v, c, None));
      ReplayAfter(es, put, maxChars);
      ReplayAfter(es + [put], UserEdited(k, v, c), maxChars);
      assert es + [put] + [UserEdited(k, v, c)] == es + Emitted(b, op);
    case DeleteOp(k, reason) => ReplayRemoved(es, b, op, k, maxChars);
    case UserDeleteOp(k) => ReplayRemoved(es, b, op, k, maxChars);
  }

  lemma ReplayAfter(es: seq<Event>, e: Event, maxChars: int)
    ensures Replay(ClipAll(es + [e], maxChars)) == ReplayOne(Replay(ClipAll(es, maxChars)), ClipEvent(e, maxChars))
  {
    ReplaySnoc(ClipAll(es, maxChars), ClipEvent(e, maxChars));
    assert ClipAll(es + [e], maxChars) == ClipAll(es, maxChars) + [ClipEvent(e, maxChars)];
  }

  lemma ReplayRemoved(es: seq<Event>, b: Beliefs, op: Op, k: string, maxChars: int)
    requires (op.DeleteOp? || op.UserDeleteOp?) && op.key == k
    ensures Replay(ClipAll(es + Emitted(b, op), maxChars))
         == if k in b then Replay(ClipAll(es, maxChars)) - {Clip(k, maxChars)} else Replay(ClipAll(es, maxChars))
  {
    if k in b {
      ReplayAfter(es, Emitted(b, op)[0], maxChars);
    } else {
      assert es + [] == es;
    }
  }

  lemma StepAgrees(es: seq<Event>, b: Beliefs, op: Op, maxChars: int)
    requires Replay(ClipAll(es, maxChars)) == Summary(b) && KeysFit(b, maxChars) && OpFits(op, maxChars)
    ensures Replay(ClipAll(es + Emitted(b, op), maxChars)) == Summary(Applied(b, op))
    ensures KeysFit(Applied(b, op), maxChars)
  {
    ReplayEmitted(es, b, op, maxChars);
    match op
    case UpsertOp(w) => SummaryPut(b, w, maxChars);
    case UserEditOp(k, v, c) => SummaryPut(b, Write(k, v, c, None), maxChars);
    case DeleteOp(k, _) => SummaryMinus(b, k);
    case UserDeleteOp(k) => SummaryMinus(b, k);
  }

  lemma SummaryPut(b: Beliefs, w: Write, maxChars: int)
    requires Fits(w.key, maxChars) && Fits(w.value, maxChars)
    ensures ReplayOne(Summary(b), ClipEvent(PutEvent(b, w), maxChars)) == Summary(Put(b, w))
  {
    ReplayPut(Summary(b), b, w, maxChars);
  }

  lemma SummaryMinus(b: Beliefs, k: string)
    ensures Summary(b - {k}) == Summary(b) - {k}
  {
  }

  /** An upsert whose key or value is cut in the log makes the log disagree with the table. */
  lemma StepDisagrees(es: seq<Event>, b: Beliefs, op: Op, maxChars: int)
    requires Replay(ClipAll(es, maxChars)) == Summary(b) && KeysFit(b, maxChars)
    requires !OpFits(op, maxChars)
    ensures Replay(ClipAll(es + Emitted(b, op), maxChars)) != Summary(Applied(b, op))
  {
    ReplayEmitted(es, b, op, maxChars);
    var w := if op.UpsertOp? then op.w else Write(op.key, op.value, op.confidence, None);
    ReplayPut(Summary(b), b, w, maxChars);
    var after := Summary(b)[Clip(w.key, maxChars) := Replayed(Clip(w.value, maxChars), Put(b, w)[w.key].confidence)];
    if !Fits(w.key, maxChars) {
      assert w.key !in after;
      assert w.key in Summary(Applied(b, op));
    } else {
      assert after[w.key].value != w.value;
      assert Summary(Applied(b, op))[w.key].value == w.value;
    }
  }

  lemma {:induction false} RunAgrees(ops: seq<Op>, maxChars: int)
    requires AllFit(ops, maxChars)
    ensures Agrees(ops, maxChars) && KeysFit(RunOps(map[], ops), maxChars)
  {
    if ops != [] {
      RunAgrees(ops[..|ops| - 1], maxChars);
      StepAgrees(RunEvents(map[], ops[..|ops| - 1]), RunOps(map[], ops[..|ops| - 1]), ops[|ops| - 1], maxChars);
    }
  }

  lemma MisfitShows(ops: seq<Op>, n: nat, maxChars: int)
    requires n < |ops| && AllFit(ops[..n], maxChars) && !OpFits(ops[n], maxChars)
    ensures !Agrees(ops[..n + 1], maxChars)
  {
    var front, whole := ops[..n], ops[..n + 1];
    assert whole[..|whole| - 1] == front && whole[|whole| - 1] == ops[n];
    RunAgrees(front, maxChars);
    StepDisagrees(RunEvents(map[], front), RunOps(map[], front), ops[n], maxChars);
  }

  /** The audit rows rebuild the table after every step of a run of completed calls, exactly when
      the clamp leaves every key and value written as it is. */
  lemma LogRebuildsTable(ops: seq<Op>, maxChars: int)
    ensures (forall n {:trigger ops[..n]} :: 0 <= n <= |ops| ==> Agrees(ops[..n], maxChars))
       <==> AllFit(ops, maxChars)
  {
    if AllFit(ops, maxChars) {
      forall n | 0 <= n <= |ops| ensures Agrees(ops[..n], maxChars) {
        FitPrefix(ops, n, maxChars);
        RunAgrees(ops[..n], maxChars);
      }
    } else {
      var n := FirstMisfit(ops, maxChars);
      MisfitShows(ops, n, maxChars);
    }
  }

  lemma {:induction false} FitPrefix(ops: seq<Op>, n: nat, maxChars: int)
    requires n <= |ops| && AllFit(ops, maxChars)
    ensures AllFit(ops[..n], maxChars)
  {
    if n < |ops| {
      assert ops[..|ops| - 1][..n] == ops[..n];
      FitPrefix(ops[..|ops| - 1], n, maxChars);
    } else {
      assert ops[..n] == ops;
    }
  }

  lemma {:induction false} FirstMisfit(ops: seq<Op>, maxChars: int) returns (n: nat)
    requires !AllFit(ops, maxChars)
    ensures n < |ops| && !OpFits(ops[n], maxChars) && AllFit(ops[..n], maxChars)
  {
    var front := ops[..|ops| - 1];
    if AllFit(front, maxChars) {
      n := |ops| - 1;
    } else {
      n := FirstMisfit(front, maxChars);
      assert ops[..n] == front[..n];
    }
  }
}
