/** The cursor-driven fact extractor: its batches, whole runs of them, and what becomes of failed calls. */
module MemoryExtract {
  import opened Prelude
  import opened AuditClamp
  import opened AuditLog
  import opened FactsStore

  datatype Candidate = Candidate(key: string, value: string, confidence: real)

  /** One attempt at a batch: how a payload becomes a transcript, and what the model call for a row
      answers in this attempt, already parsed. `None` is a payload without a transcript; for an answer it
      is a call that fails or a reply that is no JSON list. */
  datatype Attempt = Attempt(format: Value -> Option<string>, answer: (int, string) -> Option<seq<Candidate>>)

  /** The model is called for this row, and the call fails or its reply cannot be read. */
  predicate CallFails(row: AuditRow, a: Attempt) {
    && row.event.ChatCompleted? && a.format(row.event.payload).Some?
    && a.answer(row.id, a.format(row.event.payload).value).None?
  }

  function CandidatesOf(row: AuditRow, a: Attempt): seq<Candidate> {
    if !row.event.ChatCompleted? || a.format(row.event.payload).None? || CallFails(row, a) then []
    else a.answer(row.id, a.format(row.event.payload).value).value
  }

  /** The upserts one chat row asks for. */
  function WritesOf(row: AuditRow, a: Attempt): (ws: seq<Write>)
    ensures |ws| == |CandidatesOf(row, a)|
  {
    var cs := CandidatesOf(row, a);
    seq(|cs|, i requires 0 <= i < |cs| => Write(cs[i].key, cs[i].value, cs[i].confidence, Some(row.id)))
  }

  function AllWrites(rows: seq<AuditRow>, a: Attempt): seq<Write> {
    if rows == [] then []
    else AllWrites(rows[..|rows| - 1], a) + WritesOf(rows[|rows| - 1], a)
  }

  /** Chat rows with an id above `lo`, in id order. */
  function After(log: seq<AuditRow>, lo: int): seq<AuditRow> {
    if log == [] then []
    else
      var last := log[|log| - 1];
      After(log[..|log| - 1], lo) + if last.event.ChatCompleted? && last.id > lo then [last] else []
  }

  /** Chat rows with `lo < id <= hi`, in id order. */
  function Between(log: seq<AuditRow>, lo: int, hi: int): seq<AuditRow> {
    if log == [] then []
    else
      var last := log[|log| - 1];
      Between(log[..|log| - 1], lo, hi) + if last.event.ChatCompleted? && lo < last.id <= hi then [last] else []
  }

  function Fetch(log: seq<AuditRow>, cursor: int, batchSize: nat): seq<AuditRow> {
    var due := After(log, cursor);
    if |due| <= batchSize then due else due[..batchSize]
  }

  function LastId(log: seq<AuditRow>): int {
    if log == [] then 0 else log[|log| - 1].id
  }

  // ---------------------------------------------------------------- many upserts

  function PutAll(b: Beliefs, ws: seq<Write>): Beliefs {
    if ws == [] then b else Put(PutAll(b, ws[..|ws| - 1]), ws[|ws| - 1])
  }

  function PutEvents(b: Beliefs, ws: seq<Write>): seq<Event> {
    if ws == [] then []
    else PutEvents(b, ws[..|ws| - 1]) + [PutEvent(PutAll(b, ws[..|ws| - 1]), ws[|ws| - 1])]
  }

  lemma PutSnoc(b: Beliefs, ws: seq<Write>, w: Write)
    ensures PutAll(b, ws + [w]) == Put(PutAll(b, ws), w)
    ensures PutEvents(b, ws + [w]) == PutEvents(b, ws) + [PutEvent(PutAll(b, ws), w)]
  {
    assert (ws + [w])[..|ws|] == ws;
  }

  lemma {:induction false} PutConcat(b: Beliefs, xs: seq<Write>, ys: seq<Write>)
    ensures PutAll(b, xs + ys) == PutAll(PutAll(b, xs), ys)
  {
    if ys == [] {
      assert xs + ys == xs;
    } else {
      assert (xs + ys)[..|xs + ys| - 1] == xs + ys[..|ys| - 1];
      PutConcat(b, xs, ys[..|ys| - 1]);
    }
  }

  lemma {:induction false} WritesConcat(xs: seq<AuditRow>, ys: seq<AuditRow>, a: Attempt)
    ensures AllWrites(xs + ys, a) == AllWrites(xs, a) + AllWrites(ys, a)
  {
    if ys == [] {
      assert xs + ys == xs;
    } else {
      var front, last := ys[..|ys| - 1], WritesOf(ys[|ys| - 1], a);
      assert (xs + ys)[..|xs + ys| - 1] == xs + front;
      WritesConcat(xs, front, a);
      Assoc(AllWrites(xs, a), AllWrites(front, a), last);
    }
  }

  lemma Assoc(a: seq<Write>, b: seq<Write>, c: seq<Write>)
    ensures (a + b) + c == a + (b + c)
  {
  }

  // ---------------------------------------------------------------- replays are absorbed

  function At(b: Beliefs, k: string): Option<Belief> {
    if k in b then Some(b[k]) else None
  }

  /** All a sequence of upserts can do to one key: nothing; ratchet if the stored value is already
      `value` and set it otherwise; or set it whatever was stored. */
  datatype Effect =
    | Untouched
    | Ratchet(belief: Belief)
    | Overwrite(belief: Belief)

  function Act(e: Effect, b: Option<Belief>): Option<Belief> {
    match e
    case Untouched => b
    case Ratchet(n) =>
      if b.Some? && b.value.value == n.value
      then Some(n.(confidence := MaxReal(b.value.confidence, n.confidence)))
      else Some(n)
    case Overwrite(n) => Some(n)
  }

  function EffectOf(ws: seq<Write>, k: string): Effect {
    if ws == [] then Untouched
    else
      var w := ws[|ws| - 1];
      var before := EffectOf(ws[..|ws| - 1], k);
      var n := Belief(w.value, w.confidence, w.source);
      if w.key != k then before
      else if before.Untouched? then Ratchet(n)
      else if before.belief.value != w.value then Overwrite(n)
      else
        var m := n.(confidence := MaxReal(before.belief.confidence, w.confidence));
        if before.Ratchet? then Ratchet(m) else Overwrite(m)
  }

  lemma {:induction false} PutAllActs(b: Beliefs, ws: seq<Write>, k: string)
    ensures At(PutAll(b, ws), k) == Act(EffectOf(ws, k), At(b, k))
  {
    if ws != [] {
      PutAllActs(b, ws[..|ws| - 1], k);
    }
  }

  /** Replaying any prefix first changes nothing that the whole sequence does. */
  lemma ReplayAbsorbed(b: Beliefs, p: seq<Write>, q: seq<Write>)
    requires p <= q
    ensures PutAll(PutAll(b, p), q) == PutAll(b, q)
  {
    var r := q[|p|..];
    assert q == p + r;
    PutConcat(PutAll(b, p), p, r);
    PutConcat(b, p, r);
    var once, twice := PutAll(b, p), PutAll(PutAll(b, p), p);
    forall k ensures At(twice, k) == At(once, k) {
      PutAllActs(b, p, k);
      PutAllActs(once, p, k);
    }
    SameEverywhere(once, twice);
  }

  lemma SameEverywhere(a: Beliefs, b: Beliefs)
    requires forall k :: At(a, k) == At(b, k)
    ensures a == b
  {
    forall k ensures k in a <==> k in b ensures k in a ==> a[k] == b[k] {
      assert At(a, k) == At(b, k);
    }
  }

  /** The last write to `k`, or -1. */
  function LastTo(ws: seq<Write>, k: string): (j: int)
    ensures -1 <= j < |ws|
    ensures j >= 0 ==> ws[j].key == k
    ensures forall i :: j < i < |ws| ==> ws[i].key != k
  {
    if ws == [] then -1
    else if ws[|ws| - 1].key == k then |ws| - 1
    else LastTo(ws[..|ws| - 1], k)
  }

  /** Write `i` to `k` belongs to the closing run of writes of the value finally stored. */
  predicate InClosingRun(ws: seq<Write>, k: string, v: string, i: int) {
    0 <= i < |ws| && ws[i].key == k && forall h :: i <= h < |ws| && ws[h].key == k ==> ws[h].value == v
  }

  /** The stored belief counts towards the ratchet: no write to `k` ever changed the value. */
  predicate StartCounts(b: Beliefs, ws: seq<Write>, k: string, v: string) {
    k in b && b[k].value == v && forall h :: 0 <= h < |ws| && ws[h].key == k ==> ws[h].value == v
  }

  /** `x` is the highest confidence of the closing run, the stored one included where it counts. */
  ghost predicate Highest(b: Beliefs, ws: seq<Write>, k: string, v: string, x: real) {
    && (forall i :: InClosingRun(ws, k, v, i) ==> x >= ws[i].confidence)
    && (StartCounts(b, ws, k, v) ==> x >= b[k].confidence)
    && ((exists i :: InClosingRun(ws, k, v, i) && x == ws[i].confidence)
        || (StartCounts(b, ws, k, v) && x == b[k].confidence))
  }

  /** What a key holds after many upserts: the last value and its source, with the highest
      confidence seen since that value last came in; a key never written keeps what it had. */
  lemma {:induction false} FinalBelief(b: Beliefs, ws: seq<Write>, k: string)
    ensures var j := LastTo(ws, k);
            if j < 0 then At(PutAll(b, ws), k) == At(b, k)
            else
              && k in PutAll(b, ws)
              && PutAll(b, ws)[k].value == ws[j].value
              && PutAll(b, ws)[k].source == ws[j].source
              && Highest(b, ws, k, ws[j].value, PutAll(b, ws)[k].confidence)
  {
    if ws != [] {
      var n := |ws| - 1;
      var front, w := ws[..n], ws[n];
      FinalBelief(b, front, k);
      if w.key != k {
        ClosingRunSkips(b, front, w, k, if LastTo(front, k) < 0 then "" else front[LastTo(front, k)].value);
        assert ws == front + [w];
      } else {
        ClosingRunGrows(b, front, w, PutAll(b, front));
        assert ws == front + [w];
      }
    }
  }

  lemma ClosingRunSkips(b: Beliefs, ws: seq<Write>, w: Write, k: string, v: string)
    requires w.key != k
    ensures forall x :: Highest(b, ws, k, v, x) ==> Highest(b, ws + [w], k, v, x)
  {
    var all := ws + [w];
    forall i ensures InClosingRun(ws, k, v, i) <==> InClosingRun(all, k, v, i) {
      if InClosingRun(ws, k, v, i) { assert all[i] == ws[i]; }
      if InClosingRun(all, k, v, i) {
        assert i < |ws|;
        forall h | i <= h < |ws| && ws[h].key == k ensures ws[h].value == v { assert all[h] == ws[h]; }
      }
    }
    assert StartCounts(b, ws, k, v) <==> StartCounts(b, all, k, v) by {
      assert forall h :: 0 <= h < |ws| ==> all[h] == ws[h];
    }
    forall x | Highest(b, ws, k, v, x) ensures Highest(b, all, k, v, x) {
      if i :| InClosingRun(ws, k, v, i) && x == ws[i].confidence {
        assert InClosingRun(all, k, v, i) && x == all[i].confidence;
      }
    }
  }

  lemma ClosingRunGrows(b: Beliefs, ws: seq<Write>, w: Write, mid: Beliefs)
    requires var j := LastTo(ws, w.key);
             if j < 0 then At(mid, w.key) == At(b, w.key)
             else w.key in mid && mid[w.key].value == ws[j].value
                  && Highest(b, ws, w.key, ws[j].value, mid[w.key].confidence)
    ensures Highest(b, ws + [w], w.key, w.value, Put(mid, w)[w.key].confidence)
  {
    var k, v, all, n := w.key, w.value, ws + [w], |ws|;
    var x := Put(mid, w)[k].confidence;
    var j := LastTo(ws, k);
    assert forall h :: 0 <= h < n ==> all[h] == ws[h];
    assert InClosingRun(all, k, v, n);
    if j >= 0 && ws[j].value == v {
      forall i | 0 <= i < n ensures InClosingRun(ws, k, v, i) <==> InClosingRun(all, k, v, i) {
        if InClosingRun(all, k, v, i) {
          forall h | i <= h < n && ws[h].key == k ensures ws[h].value == v { assert all[h] == ws[h]; }
        }
      }
      assert StartCounts(b, ws, k, v) <==> StartCounts(b, all, k, v);
      if i :| InClosingRun(ws, k, v, i) && mid[k].confidence == ws[i].confidence {
        assert InClosingRun(all, k, v, i);
      }
    } else {
      if j >= 0 { assert all[j].key == k && all[j].value != v; }
      forall i | 0 <= i < n ensures !InClosingRun(all, k, v, i) { assert all[i] == ws[i]; }
    }
  }

  // ---------------------------------------------------------------- what the answers of a batch leave in the table

  /** The model's answer for this row has `x` at place `j`. */
  predicate Answers(row: AuditRow, a: Attempt, j: nat, x: Candidate) {
    && row.event.ChatCompleted? && a.format(row.event.payload).Some?
    && var answer := a.answer(row.id, a.format(row.event.payload).value);
       answer.Some? && j < |answer.value| && answer.value[j] == x
  }

  /** Answer `j` for row `i` is about `key`. */
  predicate Names(rows: seq<AuditRow>, a: Attempt, key: string, i: nat, j: nat, x: Candidate) {
    i < |rows| && Answers(rows[i], a, j, x) && x.key == key
  }

  /** Row order, then the order within one answer. */
  predicate Before(i: nat, j: nat, i': nat, j': nat) {
    i < i' || (i == i' && j < j')
  }

  ghost predicate LastNamed(rows: seq<AuditRow>, a: Attempt, key: string, i: nat, j: nat, x: Candidate) {
    Names(rows, a, key, i, j, x) && forall i', j', y :: Names(rows, a, key, i', j', y) ==> !Before(i, j, i', j')
  }

  /** From this answer on, the answers about `key` all give `v`. */
  ghost predicate Closing(rows: seq<AuditRow>, a: Attempt, key: string, v: string, i: nat, j: nat, x: Candidate) {
    && Names(rows, a, key, i, j, x)
    && forall i', j', y :: Names(rows, a, key, i', j', y) && !Before(i', j', i, j) ==> y.value == v
  }

  /** The table held `v` and no answer said otherwise. */
  ghost predicate HeldOn(b: Beliefs, rows: seq<AuditRow>, a: Attempt, key: string, v: string) {
    key in b && b[key].value == v && forall i, j, x :: Names(rows, a, key, i, j, x) ==> x.value == v
  }

  ghost predicate HighestAnswer(b: Beliefs, rows: seq<AuditRow>, a: Attempt, key: string, v: string, c: real) {
    && (forall i, j, x :: Closing(rows, a, key, v, i, j, x) ==> c >= x.confidence)
    && (HeldOn(b, rows, a, key, v) ==> c >= b[key].confidence)
    && ((exists i, j, x :: Closing(rows, a, key, v, i, j, x) && c == x.confidence)
        || (HeldOn(b, rows, a, key, v) && c == b[key].confidence))
  }

  ghost predicate Unnamed(rows: seq<AuditRow>, a: Attempt, key: string) {
    forall i, j, x :: !Names(rows, a, key, i, j, x)
  }

  /** `after` holds the last answer about `key`, with its row as the source and the highest confidence its
      value has had since it last came in; a key that no answer is about is as it was. */
  ghost predicate Stored(b: Beliefs, rows: seq<AuditRow>, a: Attempt, after: Beliefs, key: string) {
    if Unnamed(rows, a, key) then At(after, key) == At(b, key)
    else
      exists i: nat, j: nat, x :: LastNamed(rows, a, key, i, j, x)
        && key in after && after[key].value == x.value && after[key].source == Some(rows[i].id)
        && HighestAnswer(b, rows, a, key, x.value, after[key].confidence)
  }

  /** Where answer `j` for row `i` stands among the upserts of the batch. */
  function Place(rows: seq<AuditRow>, a: Attempt, i: nat, j: nat): nat
    requires i < |rows|
  {
    |AllWrites(rows[..i], a)| + j
  }

  lemma AnswerAt(rows: seq<AuditRow>, a: Attempt, i: nat, j: nat, x: Candidate)
    requires i < |rows| && Answers(rows[i], a, j, x)
    ensures j < |WritesOf(rows[i], a)| && Place(rows, a, i, j) < |AllWrites(rows, a)|
    ensures AllWrites(rows, a)[Place(rows, a, i, j)] == Write(x.key, x.value, x.confidence, Some(rows[i].id))
  {
    PrefixWrites(rows, i, a);
    assert CandidatesOf(rows[i], a)[j] == x;
    assert AllWrites(rows[..i + 1], a)[Place(rows, a, i, j)] == WritesOf(rows[i], a)[j];
  }

  lemma {:induction false} WriteFrom(rows: seq<AuditRow>, a: Attempt, p: nat)
    returns (i: nat, j: nat, x: Candidate)
    requires p < |AllWrites(rows, a)|
    ensures i < |rows| && Answers(rows[i], a, j, x) && Place(rows, a, i, j) == p
  {
    var n := |rows| - 1;
    if p < |AllWrites(rows[..n], a)| {
      i, j, x := WriteFrom(rows[..n], a, p);
      assert rows[..n][..i] == rows[..i];
    } else {
      i, j := n, p - |AllWrites(rows[..n], a)|;
      x := CandidatesOf(rows[n], a)[j];
    }
  }

  lemma PlaceOrder(rows: seq<AuditRow>, a: Attempt, i: nat, j: nat, i': nat, j': nat)
    requires i < |rows| && i' < |rows| && j < |WritesOf(rows[i], a)| && Before(i, j, i', j')
    ensures Place(rows, a, i, j) < Place(rows, a, i', j')
  {
    if i < i' {
      PrefixWrites(rows[..i'], i, a);
      assert rows[..i'][..i + 1] == rows[..i + 1] && rows[..i'][..i] == rows[..i];
    }
  }

  /** Places tell apart and order the answers. */
  lemma PlacesIff(rows: seq<AuditRow>, a: Attempt, i: nat, j: nat, x: Candidate, i': nat, j': nat, y: Candidate)
    requires i < |rows| && Answers(rows[i], a, j, x) && i' < |rows| && Answers(rows[i'], a, j', y)
    ensures Before(i, j, i', j') <==> Place(rows, a, i, j) < Place(rows, a, i', j')
  {
    AnswerAt(rows, a, i, j, x);
    AnswerAt(rows, a, i', j', y);
    if Before(i, j, i', j') { PlaceOrder(rows, a, i, j, i', j'); }
    if Before(i', j', i, j) { PlaceOrder(rows, a, i', j', i, j); }
  }

  lemma ClosingIsRun(rows: seq<AuditRow>, a: Attempt, key: string, v: string, i: nat, j: nat, x: Candidate)
    requires Names(rows, a, key, i, j, x)
    ensures Closing(rows, a, key, v, i, j, x) <==> InClosingRun(AllWrites(rows, a), key, v, Place(rows, a, i, j))
  {
    var ws, p := AllWrites(rows, a), Place(rows, a, i, j);
    AnswerAt(rows, a, i, j, x);
    if Closing(rows, a, key, v, i, j, x) {
      forall h | p <= h < |ws| && ws[h].key == key ensures ws[h].value == v {
        var i', j', y := WriteFrom(rows, a, h);
        AnswerAt(rows, a, i', j', y);
        PlacesIff(rows, a, i', j', y, i, j, x);
        assert Names(rows, a, key, i', j', y);
      }
    }
    if InClosingRun(ws, key, v, p) {
      forall i', j', y | Names(rows, a, key, i', j', y) && !Before(i', j', i, j) ensures y.value == v {
        AnswerAt(rows, a, i', j', y);
        PlacesIff(rows, a, i', j', y, i, j, x);
        assert ws[Place(rows, a, i', j')].value == v;
      }
    }
  }

  lemma HeldOnIsStart(b: Beliefs, rows: seq<AuditRow>, a: Attempt, key: string, v: string)
    ensures HeldOn(b, rows, a, key, v) <==> StartCounts(b, AllWrites(rows, a), key, v)
  {
    var ws := AllWrites(rows, a);
    if HeldOn(b, rows, a, key, v) {
      forall h | 0 <= h < |ws| && ws[h].key == key ensures ws[h].value == v {
        var i, j, x := WriteFrom(rows, a, h);
        AnswerAt(rows, a, i, j, x);
        assert Names(rows, a, key, i, j, x);
      }
    }
    if StartCounts(b, ws, key, v) {
      forall i, j, x | Names(rows, a, key, i, j, x) ensures x.value == v { AnswerAt(rows, a, i, j, x); }
    }
  }

  lemma HighestIsHighest(b: Beliefs, rows: seq<AuditRow>, a: Attempt, key: string, v: string, c: real)
    requires Highest(b, AllWrites(rows, a), key, v, c)
    ensures HighestAnswer(b, rows, a, key, v, c)
  {
    var ws := AllWrites(rows, a);
    HeldOnIsStart(b, rows, a, key, v);
    forall i, j, x | Closing(rows, a, key, v, i, j, x) ensures c >= x.confidence {
      AnswerAt(rows, a, i, j, x);
      ClosingIsRun(rows, a, key, v, i, j, x);
    }
    if h :| InClosingRun(ws, key, v, h) && c == ws[h].confidence {
      var i, j, x := WriteFrom(rows, a, h);
      AnswerAt(rows, a, i, j, x);
      ClosingIsRun(rows, a, key, v, i, j, x);
    }
  }

  lemma LastIsLast(rows: seq<AuditRow>, a: Attempt, key: string) returns (i: nat, j: nat, x: Candidate)
    requires LastTo(AllWrites(rows, a), key) >= 0
    ensures LastNamed(rows, a, key, i, j, x)
    ensures AllWrites(rows, a)[LastTo(AllWrites(rows, a), key)] == Write(key, x.value, x.confidence, Some(rows[i].id))
  {
    var ws := AllWrites(rows, a);
    var p := LastTo(ws, key);
    i, j, x := WriteFrom(rows, a, p);
    AnswerAt(rows, a, i, j, x);
    forall i', j', y | Names(rows, a, key, i', j', y) ensures !Before(i, j, i', j') {
      AnswerAt(rows, a, i', j', y);
      PlacesIff(rows, a, i, j, x, i', j', y);
    }
  }

  /** What all the upserts of a batch leave under a key, read off the answers themselves. */
  lemma BatchStores(b: Beliefs, rows: seq<AuditRow>, a: Attempt, key: string)
    ensures Stored(b, rows, a, PutAll(b, AllWrites(rows, a)), key)
  {
    var ws := AllWrites(rows, a);
    FinalBelief(b, ws, key);
    if LastTo(ws, key) < 0 {
      forall i, j, x ensures !Names(rows, a, key, i, j, x) {
        if Names(rows, a, key, i, j, x) { AnswerAt(rows, a, i, j, x); }
      }
    } else {
      var i, j, x := LastIsLast(rows, a, key);
      assert Names(rows, a, key, i, j, x);
      HighestIsHighest(b, rows, a, key, x.value, PutAll(b, ws)[key].confidence);
    }
  }

  lemma AllStored(b: Beliefs, rows: seq<AuditRow>, a: Attempt)
    ensures forall key :: Stored(b, rows, a, PutAll(b, AllWrites(rows, a)), key)
  {
    forall key ensures Stored(b, rows, a, PutAll(b, AllWrites(rows, a)), key) { BatchStores(b, rows, a, key); }
  }

  // ---------------------------------------------------------------- batches in the log

  lemma {:induction false} AfterSplits(log: seq<AuditRow>, lo: int, mid: int)
    requires Increasing(log) && lo <= mid
    ensures After(log, lo) == Between(log, lo, mid) + After(log, mid)
  {
    if log != [] {
      var front, last := log[..|log| - 1], log[|log| - 1];
      AfterSplits(front, lo, mid);
      if last.id <= mid { NothingAfter(front, mid); }
    }
  }

  lemma {:induction false} NothingAfter(log: seq<AuditRow>, lo: int)
    requires forall r :: r in log ==> r.id <= lo
    ensures After(log, lo) == []
  {
    if log != [] { NothingAfter(log[..|log| - 1], lo); }
  }

  lemma {:induction false} BetweenIsAfter(log: seq<AuditRow>, lo: int, hi: int)
    requires forall r :: r in log ==> r.id <= hi
    ensures Between(log, lo, hi) == After(log, lo)
  {
    if log != [] { BetweenIsAfter(log[..|log| - 1], lo, hi); }
  }

  lemma {:induction false} AfterRows(log: seq<AuditRow>, lo: int)
    ensures forall r :: r in After(log, lo) ==> r in log && r.event.ChatCompleted? && r.id > lo
    ensures Increasing(log) ==> Increasing(After(log, lo))
  {
    if log != [] {
      AfterRows(log[..|log| - 1], lo);
    }
  }

  lemma Snoc(log: seq<AuditRow>, last: AuditRow, lo: int, hi: int)
    ensures After(log + [last], lo) == After(log, lo) + if last.event.ChatCompleted? && last.id > lo then [last] else []
    ensures Between(log + [last], lo, hi)
         == Between(log, lo, hi) + if last.event.ChatCompleted? && lo < last.id <= hi then [last] else []
  {
    assert (log + [last])[..|log|] == log;
  }

  /** The first `n` due rows are exactly the chat rows between the cursor and the last of them. */
  lemma {:induction false} BatchIsBetween(log: seq<AuditRow>, lo: int, mid: int, n: nat)
    requires Increasing(log) && lo <= mid && 0 < n <= |After(log, mid)|
    ensures Between(log, lo, After(log, mid)[n - 1].id) == Between(log, lo, mid) + After(log, mid)[..n]
  {
    var front, last := log[..|log| - 1], log[|log| - 1];
    assert log == front + [last];
    if n <= |After(front, mid)| {
      BatchIsBetween(front, lo, mid, n);
      NotTheLast(front, last, lo, mid, n);
    } else {
      TheLast(front, last, lo, mid, n);
    }
  }

  lemma BelowLast(front: seq<AuditRow>, last: AuditRow, x: AuditRow)
    requires Increasing(front + [last]) && x in front
    ensures x.id < last.id
  {
    var i :| 0 <= i < |front| && front[i] == x;
    assert (front + [last])[i].id < (front + [last])[|front|].id;
  }

  lemma NotTheLast(front: seq<AuditRow>, last: AuditRow, lo: int, mid: int, n: nat)
    requires Increasing(front + [last]) && 0 < n <= |After(front, mid)|
    ensures After(front + [last], mid)[..n] == After(front, mid)[..n]
    ensures Between(front + [last], lo, After(front, mid)[n - 1].id) == Between(front, lo, After(front, mid)[n - 1].id)
    ensures Between(front + [last], lo, mid) == Between(front, lo, mid)
  {
    var x := After(front, mid)[n - 1];
    AfterRows(front, mid);
    assert x in After(front, mid);
    BelowLast(front, last, x);
    Snoc(front, last, mid, mid);
    Snoc(front, last, lo, x.id);
    Snoc(front, last, lo, mid);
  }

  lemma TheLast(front: seq<AuditRow>, last: AuditRow, lo: int, mid: int, n: nat)
    requires Increasing(front + [last]) && lo <= mid
    requires |After(front, mid)| < n <= |After(front + [last], mid)|
    ensures After(front + [last], mid)[n - 1] == last
    ensures Between(front + [last], lo, last.id) == Between(front + [last], lo, mid) + After(front + [last], mid)[..n]
  {
    Snoc(front, last, mid, mid);
    Snoc(front, last, lo, mid);
    Snoc(front, last, lo, last.id);
    assert last.id > mid;
    assert After(front + [last], mid)[..n] == After(front, mid) + [last];
    forall r | r in front ensures r.id <= last.id {
      var i :| 0 <= i < |front| && front[i] == r;
      assert (front + [last])[i].id < (front + [last])[|front|].id;
    }
    forall i, j | 0 <= i < j < |front| ensures front[i].id < front[j].id {
      assert (front + [last])[i].id < (front + [last])[j].id;
    }
    AfterSplits(front, lo, mid);
    BetweenIsAfter(front, lo, last.id);
  }

  /** Fact rows are invisible to the extractor's query. */
  lemma {:induction false} FactRowsInvisible(log: seq<AuditRow>, es: seq<Event>, maxChars: int, lo: int, hi: int)
    requires forall e :: e in es ==> !e.ChatCompleted?
    ensures After(Appended(log, es, maxChars), lo) == After(log, lo)
    ensures Between(Appended(log, es, maxChars), lo, hi) == Between(log, lo, hi)
  {
    if es != [] {
      FactRowsInvisible(log, es[..|es| - 1], maxChars, lo, hi);
    }
  }

  lemma {:induction false} PutEventsAreFacts(b: Beliefs, ws: seq<Write>)
    ensures |PutEvents(b, ws)| == |ws|
    ensures forall e :: e in PutEvents(b, ws) ==> e.FactAdded? || e.FactConfirmed? || e.FactUpdated?
  {
    if ws != [] { PutEventsAreFacts(b, ws[..|ws| - 1]); }
  }

  // ---------------------------------------------------------------- the code

  datatype BatchResult = BatchResult(rows: nat, facts: Tally)

  datatype Tally = Tally(added: nat, updated: nat, confirmed: nat)

  function Bump(t: Tally, e: Event): Tally {
    match e
    case FactAdded(_, _, _, _) => t.(added := t.added + 1)
    case FactUpdated(_, _, _, _, _) => t.(updated := t.updated + 1)
    case FactConfirmed(_, _, _, _) => t.(confirmed := t.confirmed + 1)
    case _ => t
  }

  /** How many of the emitted rows say added, updated and confirmed. */
  function TallyOf(es: seq<Event>): Tally {
    if es == [] then Tally(0, 0, 0) else Bump(TallyOf(es[..|es| - 1]), es[|es| - 1])
  }

  lemma TallySnoc(es: seq<Event>, e: Event)
    ensures TallyOf(es + [e]) == Bump(TallyOf(es), e)
  {
    assert (es + [e])[..|es|] == es;
  }

  /** The extractor's own counting: what was there before, against what is stored now. */
  function Count(t: Tally, existing: Option<FactRow>, fact: FactRow): Tally {
    if existing.None? then t.(added := t.added + 1)
    else if existing.value.value == fact.value then t.(confirmed := t.confirmed + 1)
    else t.(updated := t.updated + 1)
  }

  lemma CountIsBump(b: Beliefs, w: Write, t: Tally, existing: Option<FactRow>, fact: FactRow)
    requires existing.Some? <==> w.key in b
    requires existing.Some? ==> existing.value.value == b[w.key].value
    requires fact.value == w.value
    ensures Count(t, existing, fact) == Bump(t, PutEvent(b, w))
  {
  }

  /** Every upsert of a batch is counted exactly once. */
  lemma {:induction false} TallyIsTotal(b: Beliefs, ws: seq<Write>)
    ensures var t := TallyOf(PutEvents(b, ws)); t.added + t.updated + t.confirmed == |ws|
  {
    if ws != [] {
      TallyIsTotal(b, ws[..|ws| - 1]);
      var es := PutEvents(b, ws);
      assert es[..|es| - 1] == PutEvents(b, ws[..|ws| - 1]);
    }
  }

  /** Everything the extractor reads or writes. */
  datatype Mem = Mem(log: seq<AuditRow>, beliefs: Beliefs, cursor: int)

  datatype Config = Config(batchSize: nat, maxChars: int)

  function Batch(m: Mem, c: Config): seq<AuditRow> {
    Fetch(m.log, m.cursor, c.batchSize)
  }

  function BatchWrites(m: Mem, c: Config, a: Attempt): seq<Write> {
    AllWrites(Batch(m, c), a)
  }

  /** A batch that runs to its cursor write. */
  function Committed(m: Mem, c: Config, a: Attempt): Mem
    requires Batch(m, c) != []
  {
    var rows := Batch(m, c);
    Mem(Appended(m.log, PutEvents(m.beliefs, BatchWrites(m, c, a)), c.maxChars),
        PutAll(m.beliefs, BatchWrites(m, c, a)),
        rows[|rows| - 1].id)
  }

  /** A batch cut short after `done` table writes and `logged` audit rows. */
  function Aborted(m: Mem, c: Config, a: Attempt, done: nat, logged: nat): Mem
    requires logged <= done <= |BatchWrites(m, c, a)|
  {
    Mem(Appended(m.log, PutEvents(m.beliefs, BatchWrites(m, c, a)[..logged]), c.maxChars),
        PutAll(m.beliefs, BatchWrites(m, c, a)[..done]),
        m.cursor)
  }

  class MemoryExtractor {
    var cursorRow: Option<int>
    const store: FactsStore
    const batchSize: nat

    constructor (store: FactsStore, batchSize: nat)
      ensures cursorRow == None && this.store == store && this.batchSize == batchSize
    {
      cursorRow := None;
      this.store := store;
      this.batchSize := batchSize;
    }

    function Cursor(): int
      reads this
    {
      if cursorRow.Some? then cursorRow.value else 0
    }

    ghost function State(): Mem
      reads this, store, store.audit
    {
      Mem(store.audit.log, View(store.rows), Cursor())
    }

    ghost function Conf(): Config {
      Config(batchSize, store.audit.maxChars)
    }

    /** `ws` has been written: the table, the log and the counters all say so. */
    ghost predicate Progress(b0: Beliefs, l0: seq<AuditRow>, ws: seq<Write>, t: Tally)
      reads store, store.audit
    {
      && store.Valid()
      && View(store.rows) == PutAll(b0, ws)
      && store.audit.log == Appended(l0, PutEvents(b0, ws), store.audit.maxChars)
      && t == TallyOf(PutEvents(b0, ws))
    }

    /** An exception has left `done` of the writes in the table and `logged` of them in the log. */
    ghost predicate Stopped(b0: Beliefs, l0: seq<AuditRow>, ws: seq<Write>, done: nat, logged: nat)
      reads store, store.audit
    {
      && store.Valid()
      && logged <= done <= logged + 1 && done <= |ws|
      && View(store.rows) == PutAll(b0, ws[..done])
      && store.audit.log == Appended(l0, PutEvents(b0, ws[..logged]), store.audit.maxChars)
    }

    lemma StoppedLater(b0: Beliefs, l0: seq<AuditRow>, ws: seq<Write>, all: seq<Write>, done: nat, logged: nat)
      requires Stopped(b0, l0, ws, done, logged) && ws <= all
      ensures Stopped(b0, l0, all, done, logged)
    {
      assert ws[..done] == all[..done];
      assert ws[..logged] == all[..logged];
    }

    /** One candidate: read, upsert, count. */
    method StoreOne(w: Write, now: int, fault: Fault, t: Tally, ghost b0: Beliefs, ghost l0: seq<AuditRow>,
                    ghost ws: seq<Write>)
      returns (t': Option<Tally>)
      requires Progress(b0, l0, ws, t)
      modifies store, store.audit
      ensures t'.Some? ==> Progress(b0, l0, ws + [w], t'.value)
      ensures t'.None? ==> Stopped(b0, l0, ws + [w], if fault.AuditFails? then |ws| + 1 else |ws|, |ws|)
    {
      assert (ws + [w])[..|ws|] == ws && (ws + [w])[..|ws| + 1] == ws + [w];
      OneMore(b0, l0, ws, w, store.audit.maxChars);
      var existing := store.Get(w.key);
      var fact := store.Upsert(w, now, fault);
      if fact.None? { return None; }
      CountIsBump(PutAll(b0, ws), w, t, existing, fact.value);
      t' := Some(Count(t, existing, fact.value));
    }

    /** Candidate number `j` of a row whose upserts are `mine`. */
    method StoreNext(w: Write, now: int, fault: Fault, t: Tally,
                     ghost b0: Beliefs, ghost l0: seq<AuditRow>, ghost ws: seq<Write>, ghost mine: seq<Write>,
                     ghost j: nat)
      returns (t': Option<Tally>, ghost done: nat, ghost logged: nat)
      requires j < |mine| && mine[j] == w && Progress(b0, l0, ws + mine[..j], t)
      modifies store, store.audit
      ensures t'.Some? ==> Progress(b0, l0, ws + mine[..j + 1], t'.value)
      ensures t'.None? ==> Stopped(b0, l0, ws + mine, done, logged)
    {
      ghost var before, upTo := ws + mine[..j], ws + mine[..j + 1];
      OnePart(ws, mine, j);
      t' := StoreOne(w, now, fault, t, b0, l0, before);
      logged := |before|;
      done := if fault.AuditFails? then logged + 1 else logged;
      if t'.None? {
        assert Stopped(b0, l0, upTo, done, logged);
        StoppedLater(b0, l0, upTo, ws + mine, done, logged);
      }
    }

    /** One model call; a failed one is logged and answers nothing. */
    method ExtractOne(a: Attempt, id: int, transcript: string) returns (candidates: seq<Candidate>)
      ensures candidates == if a.answer(id, transcript).None? then [] else a.answer(id, transcript).value
    {
      var response := a.answer(id, transcript);
      if response.None? { return []; }
      candidates := response.value;
    }

    /** The candidates of one chat row, in order, until one raises. */
    method StoreRow(row: AuditRow, a: Attempt, now: int, faults: nat -> Fault, t: Tally,
                    ghost b0: Beliefs, ghost l0: seq<AuditRow>, ghost ws: seq<Write>)
      returns (t': Option<Tally>, ghost done: nat, ghost logged: nat)
      requires Progress(b0, l0, ws, t) && row.event.ChatCompleted?
      modifies store, store.audit
      ensures t'.Some? ==> Progress(b0, l0, ws + WritesOf(row, a), t'.value)
      ensures t'.None? ==> Stopped(b0, l0, ws + WritesOf(row, a), done, logged)
    {
      ghost var mine := WritesOf(row, a);
      var u := t;
      done, logged := 0, 0;
      var transcript := a.format(row.event.payload);
      if transcript.None? {
        assert ws + mine == ws;
        return Some(u), 0, 0;
      }
      var candidates := ExtractOne(a, row.id, transcript.value);
      assert candidates == CandidatesOf(row, a);
      assert ws + mine[..0] == ws;
      for j := 0 to |candidates|
        invariant Progress(b0, l0, ws + mine[..j], u)
      {
        var w := Write(candidates[j].key, candidates[j].value, candidates[j].confidence, Some(row.id));
        var next: Option<Tally>;
        next, done, logged := StoreNext(w, now, faults(u.added + u.updated + u.confirmed), u, b0, l0, ws, mine, j);
        if next.None? { return None, done, logged; }
        u := next.value;
      }
      assert mine[..|candidates|] == mine;
      t' := Some(u);
    }

    /** All rows of a batch, in order, until an upsert raises. */
    method StoreRows(rows: seq<AuditRow>, a: Attempt, now: int, faults: nat -> Fault)
      returns (t: Option<Tally>, ghost done: nat, ghost logged: nat)
      requires store.Valid() && forall r :: r in rows ==> r.event.ChatCompleted?
      modifies store, store.audit
      ensures t.Some? ==> Progress(old(View(store.rows)), old(store.audit.log), AllWrites(rows, a), t.value)
      ensures t.None? ==> Stopped(old(View(store.rows)), old(store.audit.log), AllWrites(rows, a), done, logged)
    {
      ghost var b0, l0 := View(store.rows), store.audit.log;
      var u := Tally(0, 0, 0);
      done, logged := 0, 0;
      for i := 0 to |rows|
        invariant Progress(b0, l0, AllWrites(rows[..i], a), u)
      {
        PrefixWrites(rows, i, a);
        var next;
        next, done, logged := StoreRow(rows[i], a, now, faults, u, b0, l0, AllWrites(rows[..i], a));
        if next.None? {
          StoppedLater(b0, l0, AllWrites(rows[..i + 1], a), AllWrites(rows, a), done, logged);
          return None, done, logged;
        }
        u := next.value;
      }
      assert rows[..|rows|] == rows;
      t := Some(u);
    }

    /** One batch. `readFails` is the cursor read or the fetch raising, `faults(i)` is where the i-th
        upsert of the batch fails, if it does, and `cursorFails` is the cursor write failing. The result
        is `None` exactly when an exception escapes; then `done` and `logged` say how far the batch got. */
    method ExtractOnce(a: Attempt, now: int, readFails: bool, faults: nat -> Fault, cursorFails: bool)
      returns (r: Option<BatchResult>, ghost done: nat, ghost logged: nat)
      requires store.Valid()
      modifies this, store, store.audit
      ensures store.Valid()
      ensures readFails ==> r.None? && done == 0
      ensures !readFails && old(Batch(State(), Conf())) == [] ==>
                r == Some(BatchResult(0, Tally(0, 0, 0))) && State() == old(State())
      ensures old(Batch(State(), Conf())) != [] && r.Some? ==> State() == Committed(old(State()), Conf(), a)
      ensures r.Some? ==>
                r.value == BatchResult(|old(Batch(State(), Conf()))|,
                             TallyOf(PutEvents(old(View(store.rows)), old(BatchWrites(State(), Conf(), a)))))
      ensures r.Some? ==>
                forall key :: Stored(old(View(store.rows)), old(Batch(State(), Conf())), a, View(store.rows), key)
      ensures r.None? ==>
                && logged <= done <= logged + 1 && done <= |old(BatchWrites(State(), Conf(), a))|
                && State() == Aborted(old(State()), Conf(), a, done, logged)
    {
      ghost var m, c := State(), Conf();
      done, logged := 0, 0;
      if readFails {
        NothingTried(m, c, a);
        return None, 0, 0;
      }
      AllStored(m.beliefs, Batch(m, c), a);
      var rows := Fetch(store.audit.log, Cursor(), batchSize);
      if rows == [] { return Some(BatchResult(0, Tally(0, 0, 0))), 0, 0; }
      FetchedAreChats(store.audit.log, Cursor(), batchSize);
      ghost var ws := BatchWrites(m, c, a);
      var t;
      t, done, logged := StoreRows(rows, a, now, faults);
      if t.None? { return None, done, logged; }
      assert ws[..|ws|] == ws;
      done, logged := |ws|, |ws|;
      if cursorFails { return None, done, logged; }
      cursorRow := Some(rows[|rows| - 1].id);
      r := Some(BatchResult(|rows|, t.value));
    }
  }

  lemma NothingTried(m: Mem, c: Config, a: Attempt)
    ensures Aborted(m, c, a, 0, 0) == m
  {
    assert BatchWrites(m, c, a)[..0] == [];
  }

  lemma FetchedAreChats(log: seq<AuditRow>, cursor: int, batchSize: nat)
    ensures forall r :: r in Fetch(log, cursor, batchSize) ==> r.event.ChatCompleted? && r.id > cursor && r in log
  {
    AfterRows(log, cursor);
  }

  lemma OneMore(b0: Beliefs, l0: seq<AuditRow>, ws: seq<Write>, w: Write, maxChars: int)
    ensures PutAll(b0, ws + [w]) == Put(PutAll(b0, ws), w)
    ensures Appended(l0, PutEvents(b0, ws + [w]), maxChars)
         == Appended(Appended(l0, PutEvents(b0, ws), maxChars), [PutEvent(PutAll(b0, ws), w)], maxChars)
    ensures TallyOf(PutEvents(b0, ws + [w])) == Bump(TallyOf(PutEvents(b0, ws)), PutEvent(PutAll(b0, ws), w))
  {
    PutSnoc(b0, ws, w);
    AppendedSnoc(l0, PutEvents(b0, ws), PutEvent(PutAll(b0, ws), w), maxChars);
    TallySnoc(PutEvents(b0, ws), PutEvent(PutAll(b0, ws), w));
  }

  lemma OnePart(ws: seq<Write>, mine: seq<Write>, j: nat)
    requires j < |mine|
    ensures ws + mine[..j + 1] == (ws + mine[..j]) + [mine[j]]
    ensures ws + mine[..j + 1] <= ws + mine && |ws + mine[..j]| == |ws| + j
  {
  }

  lemma PrefixWrites(rows: seq<AuditRow>, i: nat, a: Attempt)
    requires i < |rows|
    ensures AllWrites(rows[..i + 1], a) == AllWrites(rows[..i], a) + WritesOf(rows[i], a)
    ensures AllWrites(rows[..i + 1], a) <= AllWrites(rows, a)
  {
    var front := rows[..i + 1];
    assert front[..i] == rows[..i] && front[i] == rows[i];
    WritesPrefix(front, rows, a);
  }

  lemma WritesPrefix(front: seq<AuditRow>, rows: seq<AuditRow>, a: Attempt)
    requires front <= rows
    ensures AllWrites(front, a) <= AllWrites(rows, a)
  {
    assert rows == front + rows[|front|..];
    WritesConcat(front, rows[|front|..], a);
  }

  // ---------------------------------------------------------------- runs

  /** Every attempt has its own answers: a retry may be told something else, or nothing. */
  datatype Step =
    | Append(event: Event, id: int)
    | Idle
    | Commit(attempt: Attempt)
    | Abort(attempt: Attempt, done: nat, logged: nat)

  /** One step of the world: something else is logged, or one extraction call ends somehow. */
  ghost predicate Next(m: Mem, s: Step, m': Mem, c: Config) {
    match s
    case Append(e, id) =>
      (e.ChatCompleted? || e.OtherEvent?) && id > LastId(m.log) && m' == m.(log := m.log + [AuditRow(id, e)])
    case Idle => Batch(m, c) == [] && m' == m
    case Commit(a) => Batch(m, c) != [] && m' == Committed(m, c, a)
    case Abort(a, done, logged) =>
      logged <= done <= |BatchWrites(m, c, a)| && done <= logged + 1 && m' == Aborted(m, c, a, done, logged)
  }

  ghost predicate Run(ms: seq<Mem>, ss: seq<Step>, c: Config) {
    |ms| == |ss| + 1 && forall i :: 0 <= i < |ss| ==> Next(ms[i], ss[i], ms[i + 1], c)
  }

  lemma RunPrefix(ms: seq<Mem>, ss: seq<Step>, c: Config, n: nat)
    requires Run(ms, ss, c) && n <= |ss|
    ensures Run(ms[..n + 1], ss[..n], c)
  {
    forall i | 0 <= i < n ensures Next(ms[..n + 1][i], ss[..n][i], ms[..n + 1][i + 1], c) {
      assert Next(ms[i], ss[i], ms[i + 1], c);
    }
  }

  ghost predicate Start(m: Mem) {
    Increasing(m.log) && m.cursor <= LastId(m.log)
  }

  lemma FactRowsKeepOrder(m: Mem, ws: seq<Write>, c: Config, lo: int, hi: int)
    requires Increasing(m.log)
    ensures var log' := Appended(m.log, PutEvents(m.beliefs, ws), c.maxChars);
            && Increasing(log') && LastId(log') >= LastId(m.log)
            && After(log', lo) == After(m.log, lo)
            && Between(log', lo, hi) == Between(m.log, lo, hi)
            && Events(log') == Events(m.log) + ClipAll(PutEvents(m.beliefs, ws), c.maxChars)
  {
    var es := PutEvents(m.beliefs, ws);
    PutEventsAreFacts(m.beliefs, ws);
    AppendedExtends(m.log, es, c.maxChars);
    FactRowsInvisible(m.log, es, c.maxChars, lo, hi);
    var log' := Appended(m.log, es, c.maxChars);
    if es == [] { assert log' == m.log; }
    else if m.log != [] {
      assert log'[|m.log| - 1] == log'[..|m.log|][|m.log| - 1] == m.log[|m.log| - 1];
    } else {
      assert [es[0]] == es[..1];
      FirstIdPositive(m.log, es, c.maxChars);
    }
  }

  lemma {:induction false} FirstIdPositive(log: seq<AuditRow>, es: seq<Event>, maxChars: int)
    requires log == [] && es != []
    ensures Appended(log, es, maxChars) != [] && LastId(Appended(log, es, maxChars)) >= 1
  {
    var front := es[..|es| - 1];
    if front != [] { FirstIdPositive(log, front, maxChars); }
  }

  lemma LastRowDue(m: Mem, c: Config)
    requires Increasing(m.log) && Batch(m, c) != []
    ensures Batch(m, c) == After(m.log, m.cursor)[..|Batch(m, c)|]
    ensures m.cursor < Batch(m, c)[|Batch(m, c)| - 1].id <= LastId(m.log)
  {
    AfterRows(m.log, m.cursor);
    var rows := Batch(m, c);
    assert rows[|rows| - 1] == After(m.log, m.cursor)[|rows| - 1];
    var i :| 0 <= i < |m.log| && m.log[i] == rows[|rows| - 1];
  }

  lemma {:induction false} AfterHas(log: seq<AuditRow>, lo: int, row: AuditRow)
    ensures row in After(log, lo) <==> row in log && row.event.ChatCompleted? && row.id > lo
  {
    if log != [] {
      AfterHas(log[..|log| - 1], lo, row);
      assert log == log[..|log| - 1] + [log[|log| - 1]];
    }
  }

  /** A batch holds the first `batchSize` chat rows above the cursor: one that is left out comes after all
      that are in, and the batch is full. */
  lemma BatchIsDue(m: Mem, c: Config, row: AuditRow)
    requires Increasing(m.log)
    ensures |Batch(m, c)| <= c.batchSize && Increasing(Batch(m, c))
    ensures row in Batch(m, c) ==> row in m.log && row.event.ChatCompleted? && row.id > m.cursor
    ensures row in m.log && row.event.ChatCompleted? && row.id > m.cursor && row !in Batch(m, c) ==>
              |Batch(m, c)| == c.batchSize && forall x :: x in Batch(m, c) ==> x.id < row.id
  {
    var due := After(m.log, m.cursor);
    AfterHas(m.log, m.cursor, row);
    AfterRows(m.log, m.cursor);
    if row in due && row !in Batch(m, c) {
      var n := |Batch(m, c)|;
      assert due == Batch(m, c) + due[n..];
      var k :| 0 <= k < |due[n..]| && due[n..][k] == row;
      assert due[n + k] == row;
    }
  }

  lemma BatchBounds(m: Mem, c: Config)
    requires Increasing(m.log)
    ensures forall x :: x in Batch(m, c) ==> m.cursor < x.id && x.id <= Batch(m, c)[|Batch(m, c)| - 1].id
    ensures Increasing(Batch(m, c))
  {
    AfterRows(m.log, m.cursor);
    var due, rows := After(m.log, m.cursor), Batch(m, c);
    assert rows <= due;
    forall x | x in rows ensures m.cursor < x.id && x.id <= rows[|rows| - 1].id {
      var i :| 0 <= i < |rows| && rows[i] == x;
      assert due[i] == x && x in due;
    }
  }

  /** What one step does to the log and the cursor. */
  lemma CommitMoves(m: Mem, c: Config, a: Attempt, lo: int)
    requires Increasing(m.log) && lo <= m.cursor && Batch(m, c) != []
    ensures var m' := Committed(m, c, a);
            && m.cursor < m'.cursor <= LastId(m.log) && LastId(m.log) <= LastId(m'.log) && Increasing(m'.log)
            && Between(m'.log, lo, m'.cursor) == Between(m.log, lo, m.cursor) + Batch(m, c)
            && After(m'.log, m'.cursor) == After(m.log, m'.cursor)
            && Events(m'.log) == Events(m.log) + ClipAll(PutEvents(m.beliefs, BatchWrites(m, c, a)), c.maxChars)
  {
    var m', rows := Committed(m, c, a), Batch(m, c);
    LastRowDue(m, c);
    FactRowsKeepOrder(m, BatchWrites(m, c, a), c, lo, m'.cursor);
    FactRowsKeepOrder(m, BatchWrites(m, c, a), c, m'.cursor, m'.cursor);
    BatchIsBetween(m.log, lo, m.cursor, |rows|);
  }

  lemma AbortMoves(m: Mem, c: Config, a: Attempt, done: nat, logged: nat, lo: int)
    requires Increasing(m.log) && logged <= done <= |BatchWrites(m, c, a)|
    ensures var m' := Aborted(m, c, a, done, logged);
            && Increasing(m'.log) && LastId(m'.log) >= LastId(m.log)
            && Batch(m', c) == Batch(m, c) && After(m'.log, m'.cursor) == After(m.log, m.cursor)
            && Between(m'.log, lo, m'.cursor) == Between(m.log, lo, m.cursor)
            && Events(m'.log)
            == Events(m.log) + ClipAll(PutEvents(m.beliefs, BatchWrites(m, c, a)[..logged]), c.maxChars)
  {
    FactRowsKeepOrder(m, BatchWrites(m, c, a)[..logged], c, lo, m.cursor);
    FactRowsKeepOrder(m, BatchWrites(m, c, a)[..logged], c, m.cursor, m.cursor);
  }

  lemma AppendMoves(m: Mem, row: AuditRow, lo: int)
    requires Increasing(m.log) && m.cursor <= LastId(m.log) < row.id
    ensures Increasing(m.log + [row]) && LastId(m.log + [row]) == row.id
    ensures Between(m.log + [row], lo, m.cursor) == Between(m.log, lo, m.cursor)
    ensures After(m.log, m.cursor) <= After(m.log + [row], m.cursor)
    ensures Events(m.log + [row]) == Events(m.log) + [row.event]
  {
    Snoc(m.log, row, lo, m.cursor);
    Snoc(m.log, row, m.cursor, m.cursor);
    forall i | 0 <= i < |m.log| ensures m.log[i].id < row.id {
      if i < |m.log| - 1 { assert m.log[i].id < m.log[|m.log| - 1].id; }
    }
  }

  /** The batches that committed, one after the other. */
  function CommittedRows(ms: seq<Mem>, ss: seq<Step>, c: Config): seq<AuditRow>
    requires |ms| == |ss| + 1
  {
    if ss == [] then []
    else
      var n := |ss| - 1;
      CommittedRows(ms[..|ss|], ss[..n], c) + if ss[n].Commit? then Batch(ms[n], c) else []
  }

  /** In every run the log stays in order, and the committed batches are exactly the chat rows that the
      cursor has passed, each once and in id order. */
  lemma {:induction false} RunCovers(ms: seq<Mem>, ss: seq<Step>, c: Config)
    requires Run(ms, ss, c) && Start(ms[0])
    ensures var m := ms[|ss|];
            && Increasing(m.log) && ms[0].cursor <= m.cursor <= LastId(m.log)
            && CommittedRows(ms, ss, c) == Between(m.log, ms[0].cursor, m.cursor)
  {
    if ss == [] {
      EmptyBetween(ms[0].log, ms[0].cursor);
    } else {
      var n, lo := |ss| - 1, ms[0].cursor;
      RunPrefix(ms, ss, c, n);
      RunCovers(ms[..|ss|], ss[..n], c);
      assert Next(ms[n], ss[n], ms[n + 1], c);
      match ss[n]
      case Append(e, id) => AppendMoves(ms[n], AuditRow(id, e), lo);
      case Idle =>
      case Commit(a) => CommitMoves(ms[n], c, a, lo);
      case Abort(a, done, logged) => AbortMoves(ms[n], c, a, done, logged, lo);
    }
  }

  lemma {:induction false} EmptyBetween(log: seq<AuditRow>, lo: int)
    ensures Between(log, lo, lo) == []
  {
    if log != [] { EmptyBetween(log[..|log| - 1], lo); }
  }

  lemma RunOrdered(ms: seq<Mem>, ss: seq<Step>, c: Config, i: nat)
    requires Run(ms, ss, c) && Start(ms[0]) && i <= |ss|
    ensures Increasing(ms[i].log) && ms[0].cursor <= ms[i].cursor <= LastId(ms[i].log)
  {
    RunPrefix(ms, ss, c, i);
    RunCovers(ms[..i + 1], ss[..i], c);
  }

  lemma {:induction false} CursorGrows(ms: seq<Mem>, ss: seq<Step>, c: Config, i: nat, j: nat)
    requires Run(ms, ss, c) && Start(ms[0]) && i <= j <= |ss|
    ensures ms[i].cursor <= ms[j].cursor
  {
    if i < j {
      CursorGrows(ms, ss, c, i, j - 1);
      RunOrdered(ms, ss, c, j - 1);
      StepCursor(ms[j - 1], ss[j - 1], ms[j], c);
    }
  }

  lemma StepCursor(m: Mem, s: Step, m': Mem, c: Config)
    requires Start(m) && Next(m, s, m', c)
    ensures m.cursor <= m'.cursor
  {
    if s.Commit? { CommitMoves(m, c, s.attempt, m.cursor); }
  }

  /** Once a batch has committed, none of its rows is in any later batch, committed or not. */
  lemma BatchesDisjoint(ms: seq<Mem>, ss: seq<Step>, c: Config, i: nat, j: nat)
    requires Run(ms, ss, c) && Start(ms[0]) && i < j <= |ss| && ss[i].Commit?
    ensures forall x, y :: x in Batch(ms[i], c) && y in Batch(ms[j], c) ==> x.id < y.id
  {
    assert Next(ms[i], ss[i], ms[i + 1], c);
    CursorGrows(ms, ss, c, i + 1, j);
    RunOrdered(ms, ss, c, i);
    RunOrdered(ms, ss, c, j);
    BatchBounds(ms[i], c);
    BatchBounds(ms[j], c);
  }

  // ---------------------------------------------------------------- failed model calls

  /** The writes of the committing attempts, one after the other. */
  function Answered(ms: seq<Mem>, ss: seq<Step>, c: Config): seq<Write>
    requires |ms| == |ss| + 1
  {
    if ss == [] then []
    else
      var n := |ss| - 1;
      Answered(ms[..|ss|], ss[..n], c) + if ss[n].Commit? then BatchWrites(ms[n], c, ss[n].attempt) else []
  }

  function FromRow(ws: seq<Write>, id: int): seq<Write> {
    if ws == [] then []
    else FromRow(ws[..|ws| - 1], id) + if ws[|ws| - 1].source == Some(id) then [ws[|ws| - 1]] else []
  }

  lemma {:induction false} FromConcat(xs: seq<Write>, ys: seq<Write>, id: int)
    ensures FromRow(xs + ys, id) == FromRow(xs, id) + FromRow(ys, id)
  {
    if ys == [] {
      assert xs + ys == xs;
    } else {
      assert (xs + ys)[..|xs + ys| - 1] == xs + ys[..|ys| - 1];
      FromConcat(xs, ys[..|ys| - 1], id);
    }
  }

  lemma {:induction false} FromOwn(row: AuditRow, a: Attempt, id: int, n: nat)
    requires n <= |WritesOf(row, a)|
    ensures FromRow(WritesOf(row, a)[..n], id) == if row.id == id then WritesOf(row, a)[..n] else []
  {
    if n > 0 {
      FromOwn(row, a, id, n - 1);
      assert WritesOf(row, a)[..n][..n - 1] == WritesOf(row, a)[..n - 1];
    }
  }

  lemma FromRows(front: seq<AuditRow>, last: AuditRow, a: Attempt, id: int)
    ensures FromRow(AllWrites(front, a) + WritesOf(last, a), id)
         == FromRow(AllWrites(front, a), id) + if last.id == id then WritesOf(last, a) else []
  {
    FromConcat(AllWrites(front, a), WritesOf(last, a), id);
    FromOwn(last, a, id, |WritesOf(last, a)|);
    assert WritesOf(last, a)[..|WritesOf(last, a)|] == WritesOf(last, a);
  }

  /** Of the writes of a batch, those from one row are that row's own. */
  lemma {:induction false} FromBatch(rows: seq<AuditRow>, a: Attempt, row: AuditRow)
    requires Increasing(rows)
    ensures row in rows ==> FromRow(AllWrites(rows, a), row.id) == WritesOf(row, a)
    ensures (forall r :: r in rows ==> r.id != row.id) ==> FromRow(AllWrites(rows, a), row.id) == []
  {
    if rows != [] {
      var front, last := rows[..|rows| - 1], rows[|rows| - 1];
      FromBatch(front, a, row);
      FromRows(front, last, a, row.id);
      forall r | r in front ensures r.id < last.id && r in rows {
        var i :| 0 <= i < |front| && front[i] == r;
        assert rows[i] == r;
      }
    }
  }

  /** What the last step adds to a row's committed writes. */
  lemma AnsweredSnoc(ms: seq<Mem>, ss: seq<Step>, c: Config, row: AuditRow)
    requires Run(ms, ss, c) && Start(ms[0]) && ss != []
    ensures var n := |ss| - 1; var before := FromRow(Answered(ms[..|ss|], ss[..n], c), row.id);
            && (ss[n].Commit? && row in Batch(ms[n], c) ==>
                  FromRow(Answered(ms, ss, c), row.id) == before + WritesOf(row, ss[n].attempt))
            && (!ss[n].Commit? || (forall r :: r in Batch(ms[n], c) ==> r.id != row.id) ==>
                  FromRow(Answered(ms, ss, c), row.id) == before)
  {
    var n := |ss| - 1;
    var before := Answered(ms[..|ss|], ss[..n], c);
    if ss[n].Commit? {
      RunOrdered(ms, ss, c, n);
      BatchBounds(ms[n], c);
      FromConcat(before, BatchWrites(ms[n], c, ss[n].attempt), row.id);
      FromBatch(Batch(ms[n], c), ss[n].attempt, row);
    } else {
      assert Answered(ms, ss, c) == before + [] == before;
    }
  }

  /** A row's writes among all committed answers are those of the one attempt that committed it. */
  lemma {:induction false} Contributes(ms: seq<Mem>, ss: seq<Step>, c: Config, i: nat, row: AuditRow)
    requires Run(ms, ss, c) && Start(ms[0]) && i < |ss| && ss[i].Commit? && row in Batch(ms[i], c)
    ensures FromRow(Answered(ms, ss, c), row.id) == WritesOf(row, ss[i].attempt)
  {
    var n := |ss| - 1;
    RunPrefix(ms, ss, c, n);
    AnsweredSnoc(ms, ss, c, row);
    if i < n {
      Contributes(ms[..|ss|], ss[..n], c, i, row);
      BatchesDisjoint(ms, ss, c, i, n);
    } else {
      assert row.id > ms[n].cursor by {
        RunOrdered(ms, ss, c, n);
        BatchBounds(ms[n], c);
      }
      NotYet(ms[..|ss|], ss[..n], c, row);
    }
  }

  /** A row above the cursor has contributed nothing yet. */
  lemma {:induction false} NotYet(ms: seq<Mem>, ss: seq<Step>, c: Config, row: AuditRow)
    requires Run(ms, ss, c) && Start(ms[0]) && row.id > ms[|ss|].cursor
    ensures FromRow(Answered(ms, ss, c), row.id) == []
  {
    if ss != [] {
      var n := |ss| - 1;
      RunPrefix(ms, ss, c, n);
      CursorGrows(ms, ss, c, n, n + 1);
      NotYet(ms[..|ss|], ss[..n], c, row);
      AnsweredSnoc(ms, ss, c, row);
      if ss[n].Commit? { PassedByCommit(ms, ss, c, n); }
    }
  }

  lemma PassedByCommit(ms: seq<Mem>, ss: seq<Step>, c: Config, i: nat)
    requires Run(ms, ss, c) && Start(ms[0]) && i < |ss| && ss[i].Commit?
    ensures forall r :: r in Batch(ms[i], c) ==> r.id <= ms[i + 1].cursor
  {
    assert Next(ms[i], ss[i], ms[i + 1], c);
    RunOrdered(ms, ss, c, i);
    BatchBounds(ms[i], c);
  }

  lemma {:induction false} CommittedIn(ms: seq<Mem>, ss: seq<Step>, c: Config, row: AuditRow) returns (i: nat)
    requires |ms| == |ss| + 1 && row in CommittedRows(ms, ss, c)
    ensures i < |ss| && ss[i].Commit? && row in Batch(ms[i], c)
  {
    var n := |ss| - 1;
    if row in CommittedRows(ms[..|ss|], ss[..n], c) {
      i := CommittedIn(ms[..|ss|], ss[..n], c, row);
    } else {
      i := n;
    }
  }

  lemma {:induction false} InBetween(log: seq<AuditRow>, lo: int, hi: int, row: AuditRow)
    requires row in log && row.event.ChatCompleted? && lo < row.id <= hi
    ensures row in Between(log, lo, hi)
  {
    if row != log[|log| - 1] { InBetween(log[..|log| - 1], lo, hi, row); }
  }

  /** Every chat row the cursor has passed was committed by exactly one attempt. If its model call failed
      in that attempt it contributes nothing, ever; otherwise it contributes exactly what the call
      answered there, whatever other attempts were told. */
  lemma PassedRow(ms: seq<Mem>, ss: seq<Step>, c: Config, row: AuditRow) returns (i: nat)
    requires Run(ms, ss, c) && Start(ms[0])
    requires row in ms[|ss|].log && row.event.ChatCompleted? && ms[0].cursor < row.id <= ms[|ss|].cursor
    ensures i < |ss| && ss[i].Commit? && row in Batch(ms[i], c)
    ensures forall j :: 0 <= j < |ss| && ss[j].Commit? && row in Batch(ms[j], c) ==> j == i
    ensures CallFails(row, ss[i].attempt) ==> FromRow(Answered(ms, ss, c), row.id) == []
    ensures !CallFails(row, ss[i].attempt) ==> FromRow(Answered(ms, ss, c), row.id) == WritesOf(row, ss[i].attempt)
  {
    RunCovers(ms, ss, c);
    InBetween(ms[|ss|].log, ms[0].cursor, ms[|ss|].cursor, row);
    i := CommittedIn(ms, ss, c, row);
    Contributes(ms, ss, c, i, row);
    forall j | 0 <= j < |ss| && ss[j].Commit? && row in Batch(ms[j], c) ensures j == i {
      if j < i { BatchesDisjoint(ms, ss, c, j, i); }
      if i < j { BatchesDisjoint(ms, ss, c, i, j); }
    }
  }

  /** Step `i` is an attempt at a batch with `row` in it, and the row's call fails in that attempt. */
  predicate FailedIn(ms: seq<Mem>, ss: seq<Step>, c: Config, i: nat, row: AuditRow)
    requires |ms| == |ss| + 1 && i < |ss|
  {
    (ss[i].Commit? || ss[i].Abort?) && row in Batch(ms[i], c) && CallFails(row, ss[i].attempt)
  }

  /** The row is still to be fetched. */
  predicate StillDue(m: Mem, row: AuditRow) {
    row in After(m.log, m.cursor)
  }

  lemma AttemptDue(ms: seq<Mem>, ss: seq<Step>, c: Config, i: nat, row: AuditRow)
    requires Run(ms, ss, c) && Start(ms[0]) && i < |ss| && (ss[i].Commit? || ss[i].Abort?) && row in Batch(ms[i], c)
    ensures StillDue(ms[i + 1], row) <==> ss[i].Abort?
  {
    RunOrdered(ms, ss, c, i);
    assert Next(ms[i], ss[i], ms[i + 1], c);
    var m := ms[i];
    assert row in After(m.log, m.cursor);
    match ss[i]
    case Commit(a) =>
      CommitMoves(m, c, a, m.cursor);
      BatchBounds(m, c);
      AfterRows(ms[i + 1].log, ms[i + 1].cursor);
    case Abort(a, done, logged) => AbortMoves(m, c, a, done, logged, m.cursor);
  }

  /** "Failures don't advance the cursor, they are retried" holds of a run exactly when no call failed in
      an attempt that committed. */
  lemma RetriedIff(ms: seq<Mem>, ss: seq<Step>, c: Config)
    requires Run(ms, ss, c) && Start(ms[0])
    ensures (forall i, row :: 0 <= i < |ss| && FailedIn(ms, ss, c, i, row) ==> StillDue(ms[i + 1], row))
       <==> (forall i, row :: 0 <= i < |ss| && ss[i].Commit? ==> !FailedIn(ms, ss, c, i, row))
  {
    forall i: nat, row | i < |ss| && FailedIn(ms, ss, c, i, row)
      ensures StillDue(ms[i + 1], row) <==> ss[i].Abort?
    {
      AttemptDue(ms, ss, c, i, row);
    }
  }

  lemma OneRow(m: Mem, row: AuditRow, c: Config, a: Attempt)
    requires m.log == [row] && m.cursor < row.id && row.event.ChatCompleted? && c.batchSize > 0
    ensures Batch(m, c) == [row] && BatchWrites(m, c, a) == WritesOf(row, a)
  {
    assert m.log[..0] == [] && After([], m.cursor) == [];
    assert After(m.log, m.cursor) == [] + [row] == [row];
    assert [row][..0] == [] && AllWrites([], a) == [];
    assert AllWrites([row], a) == [] + WritesOf(row, a) == WritesOf(row, a);
  }

  /** The shortest run in which it does not: one row, its call fails, the batch commits, and whatever
      happens afterwards the row is never fetched again and has given nothing. */
  lemma FailedCallIsLost(payload: Value, a: Attempt, c: Config, ms: seq<Mem>, ss: seq<Step>)
    requires c.batchSize > 0 && a.format(payload).Some? && a.answer(1, a.format(payload).value).None?
    requires ss != [] && ss[0] == Commit(a) && |ms| == |ss| + 1
    requires ms[0] == Mem([AuditRow(1, ChatCompleted(payload))], map[], 0) && ms[1] == ms[0].(cursor := 1)
    requires forall i :: 1 <= i < |ss| ==> Next(ms[i], ss[i], ms[i + 1], c)
    ensures Run(ms, ss, c)
    ensures FromRow(Answered(ms, ss, c), 1) == []
    ensures forall j :: 1 <= j <= |ss| ==> ms[0].log[0] !in Batch(ms[j], c)
  {
    var row, m := ms[0].log[0], ms[0];
    OneRow(m, row, c, a);
    assert BatchWrites(m, c, a) == [];
    assert Committed(m, c, a) == ms[1];
    forall i | 0 <= i < |ss| ensures Next(ms[i], ss[i], ms[i + 1], c) {}
    Contributes(ms, ss, c, 0, row);
    forall j | 1 <= j <= |ss| ensures row !in Batch(ms[j], c) { BatchesDisjoint(ms, ss, c, 0, j); }
  }
}
