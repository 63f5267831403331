/** The append-only audit log: typed events, the clamp applied on every write, growing row ids. */
module AuditLog {
  import opened Prelude
  import opened AuditClamp

  datatype Event =
    | ChatCompleted(payload: Value)
    | FactAdded(key: string, value: string, confidence: real, source: Option<int>)
    | FactConfirmed(key: string, value: string, confidence: real, source: Option<int>)
    | FactUpdated(key: string, oldValue: string, newValue: string, confidence: real, source: Option<int>)
    | FactDeleted(key: string, value: string, reason: string)
    | UserEdited(key: string, value: string, confidence: real)
    | UserDeleted(key: string, value: string)
    | OtherEvent(payload: Value)

  datatype AuditRow = AuditRow(id: int, event: Event)

  /** A limit of zero or less switches clamping off. */
  function Clip(s: string, maxChars: int): string {
    if maxChars <= 0 then s else ClampString(s, maxChars)
  }

  function ClipEvent(e: Event, maxChars: int): Event {
    match e
    case ChatCompleted(p) => ChatCompleted(if maxChars <= 0 then p else Clamp(p, maxChars))
    case FactAdded(k, v, c, s) => FactAdded(Clip(k, maxChars), Clip(v, maxChars), c, s)
    case FactConfirmed(k, v, c, s) => FactConfirmed(Clip(k, maxChars), Clip(v, maxChars), c, s)
    case FactUpdated(k, o, n, c, s) =>
      FactUpdated(Clip(k, maxChars), Clip(o, maxChars), Clip(n, maxChars), c, s)
    case FactDeleted(k, v, r) => FactDeleted(Clip(k, maxChars), Clip(v, maxChars), Clip(r, maxChars))
    case UserEdited(k, v, c) => UserEdited(Clip(k, maxChars), Clip(v, maxChars), c)
    case UserDeleted(k, v) => UserDeleted(Clip(k, maxChars), Clip(v, maxChars))
    case OtherEvent(p) => OtherEvent(if maxChars <= 0 then p else Clamp(p, maxChars))
  }

  function ClipAll(es: seq<Event>, maxChars: int): seq<Event> {
    seq(|es|, i requires 0 <= i < |es| => ClipEvent(es[i], maxChars))
  }

  /** The dictionary that is stored for an event. */
  function PayloadOf(e: Event): Value {
    match e
    case ChatCompleted(p) => p
    case FactAdded(k, v, c, s) => FactPayload(k, v, c, s)
    case FactConfirmed(k, v, c, s) => FactPayload(k, v, c, s)
    case FactUpdated(k, o, n, c, s) =>
      Dict([Entry("key", Str(k)), Entry("old_value", Str(o)), Entry("new_value", Str(n)),
            Entry("confidence", Scalar(Number(c))), Entry("source_audit_id", SourceValue(s))])
    case FactDeleted(k, v, r) => Dict([Entry("key", Str(k)), Entry("value", Str(v)), Entry("reason", Str(r))])
    case UserEdited(k, v, c) =>
      Dict([Entry("key", Str(k)), Entry("value", Str(v)), Entry("confidence", Scalar(Number(c)))])
    case UserDeleted(k, v) => Dict([Entry("key", Str(k)), Entry("value", Str(v))])
    case OtherEvent(p) => p
  }

  function FactPayload(k: string, v: string, c: real, s: Option<int>): Value {
    Dict([Entry("key", Str(k)), Entry("value", Str(v)),
          Entry("confidence", Scalar(Number(c))), Entry("source_audit_id", SourceValue(s))])
  }

  function SourceValue(s: Option<int>): Value {
    Scalar(if s.Some? then Number(s.value as real) else Null)
  }

  /** Clipping the typed event is the payload clamp seen through `PayloadOf`. */
  lemma ClipIsClamp(e: Event, maxChars: int)
    requires maxChars > 0
    ensures PayloadOf(ClipEvent(e, maxChars)) == Clamp(PayloadOf(e), maxChars)
  {
    match e
    case ChatCompleted(_) =>
    case OtherEvent(_) =>
    case _ =>
      assert PayloadOf(ClipEvent(e, maxChars)).entries == Clamp(PayloadOf(e), maxChars).entries;
  }

  /** The event type that is stored beside the payload. */
  function TypeOf(e: Event): string {
    match e
    case ChatCompleted(_) => "chat.completed"
    case FactAdded(_, _, _, _) => "memory.fact.added"
    case FactConfirmed(_, _, _, _) => "memory.fact.confirmed"
    case FactUpdated(_, _, _, _, _) => "memory.fact.updated"
    case FactDeleted(_, _, _) => "memory.fact.deleted"
    case UserEdited(_, _, _) => "memory.fact.user_edited"
    case UserDeleted(_, _) => "memory.fact.user_deleted"
    case OtherEvent(_) => "any other"
  }

  /** The clamp never touches the event type, and with a limit of zero or less it touches nothing. */
  lemma ClipKeepsType(e: Event, maxChars: int)
    ensures TypeOf(ClipEvent(e, maxChars)) == TypeOf(e)
    ensures maxChars <= 0 ==> ClipEvent(e, maxChars) == e
  {
  }

  function NextId(log: seq<AuditRow>): int {
    if log == [] then 1 else log[|log| - 1].id + 1
  }

  predicate Increasing(log: seq<AuditRow>) {
    forall i, j :: 0 <= i < j < |log| ==> log[i].id < log[j].id
  }

  function Events(log: seq<AuditRow>): seq<Event> {
    seq(|log|, i requires 0 <= i < |log| => log[i].event)
  }

  /** The log after recording `es` one after the other. */
  function Appended(log: seq<AuditRow>, es: seq<Event>, maxChars: int): seq<AuditRow> {
    if es == [] then log
    else
      var before := Appended(log, es[..|es| - 1], maxChars);
      before + [AuditRow(NextId(before), ClipEvent(es[|es| - 1], maxChars))]
  }

  /** Recording only extends the log, keeps ids growing, and stores exactly the clipped events. */
  lemma {:induction false} AppendedExtends(log: seq<AuditRow>, es: seq<Event>, maxChars: int)
    ensures |Appended(log, es, maxChars)| == |log| + |es|
    ensures Appended(log, es, maxChars)[..|log|] == log
    ensures Increasing(log) ==> Increasing(Appended(log, es, maxChars))
    ensures Events(Appended(log, es, maxChars)) == Events(log) + ClipAll(es, maxChars)
  {
    var after := Appended(log, es, maxChars);
    if es == [] {
      assert Events(after) == Events(log) + ClipAll(es, maxChars);
    } else {
      var front := es[..|es| - 1];
      AppendedExtends(log, front, maxChars);
      var last := ClipEvent(es[|es| - 1], maxChars);
      assert ClipAll(es, maxChars) == ClipAll(front, maxChars) + [last];
      assert Events(after) == Events(Appended(log, front, maxChars)) + [last];
    }
  }

  lemma AppendedSnoc(log: seq<AuditRow>, es: seq<Event>, e: Event, maxChars: int)
    ensures Appended(log, es + [e], maxChars) == Appended(Appended(log, es, maxChars), [e], maxChars)
  {
    assert (es + [e])[..|es|] == es;
    var l := Appended(log, es, maxChars);
    assert [e][..0] == [];
    assert Appended(l, [], maxChars) == l;
  }

  class AuditLogger {
    var log: seq<AuditRow>
    const maxChars: int

    constructor (maxChars: int)
      ensures log == [] && this.maxChars == maxChars
    {
      this.log := [];
      this.maxChars := maxChars;
    }

    /** Persist one event; `fails` is the database refusing the insert, which stores nothing. */
    method Record(e: Event, fails: bool) returns (id: Option<int>)
      modifies this
      ensures fails ==> log == old(log) && id == None
      ensures !fails ==> log == Appended(old(log), [e], maxChars) && id == Some(NextId(old(log)))
    {
      if fails { return None; }
      id := Some(NextId(log));
      assert [e][..0] == [];
      assert Appended(log, [], maxChars) == log;
      log := log + [AuditRow(NextId(log), ClipEvent(e, maxChars))];
    }
  }
}
