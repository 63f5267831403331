/** When at-least-once extraction ends in the exactly-once state, and what aborted attempts leave behind. */
module MemoryConverge {
  import opened Prelude
  import opened AuditClamp
  import opened AuditLog
  import opened FactsStore
  import opened MemoryExtract

  // ---------------------------------------------------------------- one pass over the committed answers

  function Keys(ws: seq<Write>): set<string> {
    set w | w in ws :: w.key
  }

  lemma KeysSnoc(ws: seq<Write>, w: Write)
    ensures Keys(ws + [w]) == Keys(ws) + {w.key}
  {
    assert forall x :: x in ws + [w] <==> x in ws || x == w;
  }

  lemma PrefixKeys(p: seq<Write>, q: seq<Write>)
    requires p <= q
    ensures Keys(p) <= Keys(q)
  {
    forall w | w in p ensures w in q {}
  }

  lemma {:induction false} PutAllKeys(b: Beliefs, ws: seq<Write>)
    ensures PutAll(b, ws).Keys == b.Keys + Keys(ws)
  {
    if ws != [] {
      PutAllKeys(b, ws[..|ws| - 1]);
      KeysSnoc(ws[..|ws| - 1], ws[|ws| - 1]);
      assert ws == ws[..|ws| - 1] + [ws[|ws| - 1]];
    }
  }

  /** How many of the writes replace another value. */
  function Changes(b: Beliefs, ws: seq<Write>): nat {
    if ws == [] then 0
    else
      var before, w := PutAll(b, ws[..|ws| - 1]), ws[|ws| - 1];
      Changes(b, ws[..|ws| - 1]) + if w.key in before && before[w.key].value != w.value then 1 else 0
  }

  lemma OneMoreKey(keys: set<string>, had: set<string>, k: string)
    ensures |keys + {k} - had| == |keys - had| + if k in had + keys then 0 else 1
  {
    if k in had + keys { assert keys + {k} - had == keys - had; } else { assert keys + {k} - had == keys - had + {k}; }
  }

  lemma NewKey(b: Beliefs, ws: seq<Write>, w: Write)
    ensures |Keys(ws + [w]) - b.Keys| == |Keys(ws) - b.Keys| + if w.key in PutAll(b, ws).Keys then 0 else 1
  {
    PutAllKeys(b, ws);
    KeysSnoc(ws, w);
    OneMoreKey(Keys(ws), b.Keys, w.key);
  }

  lemma BumpTells(t: Tally, b: Beliefs, w: Write)
    ensures var t' := Bump(t, PutEvent(b, w));
            && t'.added == t.added + (if w.key in b.Keys then 0 else 1)
            && t'.updated == t.updated + (if w.key in b && b[w.key].value != w.value then 1 else 0)
            && t'.added + t'.updated + t'.confirmed == t.added + t.updated + t.confirmed + 1
  {
  }

  /** What the counters of a batch say. */
  predicate Told(t: Tally, b: Beliefs, ws: seq<Write>) {
    t.added == |Keys(ws) - b.Keys| && t.updated == Changes(b, ws) && t.added + t.updated + t.confirmed == |ws|
  }

  lemma ToldSnoc(t: Tally, b: Beliefs, ws: seq<Write>, w: Write)
    requires Told(t, b, ws)
    ensures Told(Bump(t, PutEvent(PutAll(b, ws), w)), b, ws + [w])
  {
    NewKey(b, ws, w);
    BumpTells(t, PutAll(b, ws), w);
    assert (ws + [w])[..|ws|] == ws;
  }

  /** Facts added are new keys, facts updated are values replaced, and the other writes of the batch are
      confirmations. */
  lemma {:induction false} TallyTells(b: Beliefs, ws: seq<Write>)
    ensures Told(TallyOf(PutEvents(b, ws)), b, ws)
  {
    if ws == [] {
      assert Keys(ws) - b.Keys == {};
    } else {
      var front, w := ws[..|ws| - 1], ws[|ws| - 1];
      assert ws == front + [w];
      TallyTells(b, front);
      ToldNext(b, front, w);
    }
  }

  lemma ToldNext(b: Beliefs, ws: seq<Write>, w: Write)
    requires Told(TallyOf(PutEvents(b, ws)), b, ws)
    ensures Told(TallyOf(PutEvents(b, ws + [w])), b, ws + [w])
  {
    ToldSnoc(TallyOf(PutEvents(b, ws)), b, ws, w);
    PutSnoc(b, ws, w);
    TallySnoc(PutEvents(b, ws), PutEvent(PutAll(b, ws), w));
  }

  /** The start table with each committed answer put in once, in id order. */
  function OnePass(ms: seq<Mem>, ss: seq<Step>, c: Config): Beliefs
    requires |ms| == |ss| + 1
  {
    PutAll(ms[0].beliefs, Answered(ms, ss, c))
  }

  /** `x` holds the value of `n` at a higher confidence than `n` itself. */
  predicate Ahead(x: Option<Belief>, n: Belief) {
    x.Some? && x.value.value == n.value && x.value.confidence > n.confidence
  }

  /** Writes with effect `e` wipe out the difference between what should be stored and what is. */
  predicate Erased(should: Option<Belief>, stored: Option<Belief>, e: Effect) {
    match e
    case Untouched => stored == should
    case Overwrite(_) => true
    case Ratchet(n) =>
      && (Ahead(stored, n) <==> Ahead(should, n))
      && (Ahead(stored, n) ==> stored.value.confidence == should.value.confidence)
  }

  lemma ErasedIff(should: Option<Belief>, stored: Option<Belief>, e: Effect)
    ensures Act(e, stored) == Act(e, should) <==> Erased(should, stored, e)
  {
  }

  /** What the three effects mean: no write to the key; writes of one value, at most as confident as
      `n` and one of them exactly; writes of at least two values. */
  lemma {:induction false} EffectMeaning(ws: seq<Write>, k: string)
    ensures EffectOf(ws, k).Untouched? <==> k !in Keys(ws)
    ensures match EffectOf(ws, k)
            case Untouched => true
            case Ratchet(n) =>
              && (forall i :: 0 <= i < |ws| && ws[i].key == k ==>
                    ws[i].value == n.value && ws[i].confidence <= n.confidence)
              && (exists i :: 0 <= i < |ws| && ws[i].key == k && ws[i].confidence == n.confidence)
            case Overwrite(n) =>
              exists i, j :: 0 <= i < |ws| && 0 <= j < |ws| && ws[i].key == k == ws[j].key && ws[i].value != ws[j].value
  {
    if ws != [] {
      var front, w := ws[..|ws| - 1], ws[|ws| - 1];
      EffectMeaning(front, k);
      KeysSnoc(front, w);
      assert ws == front + [w];
    }
  }

  /** Two tables agree on `k` after the same writes exactly when the writes wipe out their difference. */
  lemma KeyConvergesIff(should: Beliefs, stored: Beliefs, ws: seq<Write>, k: string)
    ensures At(PutAll(stored, ws), k) == At(PutAll(should, ws), k)
       <==> Erased(At(should, k), At(stored, k), EffectOf(ws, k))
  {
    PutAllActs(stored, ws, k);
    PutAllActs(should, ws, k);
    ErasedIff(At(should, k), At(stored, k), EffectOf(ws, k));
  }

  lemma OnePassCommits(ms: seq<Mem>, ss: seq<Step>, c: Config)
    requires Run(ms, ss, c) && ss != [] && ss[|ss| - 1].Commit?
    ensures var n := |ss| - 1; var ws := BatchWrites(ms[n], c, ss[n].attempt);
            && OnePass(ms, ss, c) == PutAll(OnePass(ms[..|ss|], ss[..n], c), ws)
            && ms[|ss|].beliefs == PutAll(ms[n].beliefs, ws)
  {
    var n := |ss| - 1;
    assert Next(ms[n], ss[n], ms[n + 1], c);
    PutConcat(ms[0].beliefs, Answered(ms[..|ss|], ss[..n], c), BatchWrites(ms[n], c, ss[n].attempt));
  }

  /** After any run that ends in a commit, whatever each attempt was told, the table is one pass over the
      committed answers exactly when, key by key, the last batch wiped out what aborted attempts left:
      it wrote the key with two values; or it wrote one value and neither table, or both alike, held
      that value at a higher confidence; or it did not write the key and nothing was left there. */
  lemma ConvergesIff(ms: seq<Mem>, ss: seq<Step>, c: Config)
    requires Run(ms, ss, c) && ss != [] && ss[|ss| - 1].Commit?
    ensures var n := |ss| - 1; var should := OnePass(ms[..|ss|], ss[..n], c);
            ms[|ss|].beliefs == OnePass(ms, ss, c) <==>
            forall k :: Erased(At(should, k), At(ms[n].beliefs, k), EffectOf(BatchWrites(ms[n], c, ss[n].attempt), k))
  {
    var n := |ss| - 1;
    var should, stored, ws := OnePass(ms[..|ss|], ss[..n], c), ms[n].beliefs, BatchWrites(ms[n], c, ss[n].attempt);
    OnePassCommits(ms, ss, c);
    forall k
      ensures At(PutAll(stored, ws), k) == At(PutAll(should, ws), k) <==>
                Erased(At(should, k), At(stored, k), EffectOf(ws, k))
    {
      KeyConvergesIff(should, stored, ws, k);
    }
    if forall k :: Erased(At(should, k), At(stored, k), EffectOf(ws, k)) {
      SameEverywhere(PutAll(stored, ws), PutAll(should, ws));
    }
  }

  /** The table writes of one step. */
  function Tried(m: Mem, s: Step, c: Config): seq<Write> {
    match s
    case Commit(a) => BatchWrites(m, c, a)
    case Abort(a, done, _) => if done <= |BatchWrites(m, c, a)| then BatchWrites(m, c, a)[..done] else []
    case _ => []
  }

  /** Every table write of a run, aborted attempts included. */
  function Performed(ms: seq<Mem>, ss: seq<Step>, c: Config): seq<Write>
    requires |ms| == |ss| + 1
  {
    if ss == [] then [] else Performed(ms[..|ss|], ss[..|ss| - 1], c) + Tried(ms[|ss| - 1], ss[|ss| - 1], c)
  }

  lemma {:induction false} RunPerforms(ms: seq<Mem>, ss: seq<Step>, c: Config)
    requires Run(ms, ss, c)
    ensures ms[|ss|].beliefs == PutAll(ms[0].beliefs, Performed(ms, ss, c))
  {
    if ss != [] {
      var n := |ss| - 1;
      RunPrefix(ms, ss, c, n);
      RunPerforms(ms[..|ss|], ss[..n], c);
      assert Next(ms[n], ss[n], ms[n + 1], c);
      PutConcat(ms[0].beliefs, Performed(ms[..|ss|], ss[..n], c), Tried(ms[n], ss[n], c));
    }
  }

  /** The keys in the table that no committed answer (and no earlier fact) accounts for are exactly those
      that an aborted attempt wrote and no committing one did. */
  lemma LeftoverKeys(ms: seq<Mem>, ss: seq<Step>, c: Config, k: string)
    requires Run(ms, ss, c)
    ensures k in ms[|ss|].beliefs && k !in OnePass(ms, ss, c)
       <==> k in Keys(Performed(ms, ss, c)) && k !in Keys(Answered(ms, ss, c)) && k !in ms[0].beliefs
  {
    RunPerforms(ms, ss, c);
    PutAllKeys(ms[0].beliefs, Performed(ms, ss, c));
    PutAllKeys(ms[0].beliefs, Answered(ms, ss, c));
    assert k in ms[|ss|].beliefs <==> k in ms[0].beliefs.Keys + Keys(Performed(ms, ss, c));
    assert k in OnePass(ms, ss, c) <==> k in ms[0].beliefs.Keys + Keys(Answered(ms, ss, c));
  }

  /** A run that leaves one: the first attempt stores its answer and is cut short before the cursor
      moves, the retry is told nothing and commits. */
  lemma LeftoverRun(payload: Value, told: Attempt, silent: Attempt, cand: Candidate, c: Config)
      returns (ms: seq<Mem>, ss: seq<Step>)
    requires c.batchSize > 0 && told.format(payload).Some? && silent.format(payload).Some?
    requires told.answer(1, told.format(payload).value) == Some([cand])
    requires silent.answer(1, silent.format(payload).value) == Some([])
    ensures Run(ms, ss, c) && Start(ms[0]) && |ss| == 2 && ss[1] == Commit(silent)
    ensures cand.key in ms[2].beliefs && cand.key !in OnePass(ms, ss, c)
  {
    var row := AuditRow(1, ChatCompleted(payload));
    var m := Mem([row], map[], 0);
    var w := Write(cand.key, cand.value, cand.confidence, Some(1));
    assert WritesOf(row, told) == [w] && WritesOf(row, silent) == [];
    LeftoverCut(m, row, told, silent, w, c);
    var cut := Aborted(m, c, told, 1, 1);
    ms, ss := [m, cut, Committed(cut, c, silent)], [Abort(told, 1, 1), Commit(silent)];
    assert Run(ms, ss, c) by {
      forall i | 0 <= i < 2 ensures Next(ms[i], ss[i], ms[i + 1], c) {}
    }
    LeftoverWrites(ms, ss, c, w);
    LeftoverKeys(ms, ss, c, cand.key);
  }

  lemma LeftoverCut(m: Mem, row: AuditRow, told: Attempt, silent: Attempt, w: Write, c: Config)
    requires m.log == [row] && m.cursor < row.id && row.event.ChatCompleted? && c.batchSize > 0
    requires WritesOf(row, told) == [w] && WritesOf(row, silent) == []
    ensures BatchWrites(m, c, told) == [w]
    ensures var cut := Aborted(m, c, told, 1, 1); Batch(cut, c) != [] && BatchWrites(cut, c, silent) == []
  {
    OneRow(m, row, c, told);
    OneRow(m, row, c, silent);
    AbortMoves(m, c, told, 1, 1, 0);
  }

  lemma LeftoverWrites(ms: seq<Mem>, ss: seq<Step>, c: Config, w: Write)
    requires |ms| == 3 && |ss| == 2 && ss[0].Abort? && ss[1].Commit?
    requires BatchWrites(ms[0], c, ss[0].attempt) == [w] && ss[0].done == 1
    requires BatchWrites(ms[1], c, ss[1].attempt) == []
    ensures Performed(ms, ss, c) == [w] && Answered(ms, ss, c) == []
    ensures w.key in Keys(Performed(ms, ss, c))
  {
    var ms1, ss1 := ms[..2], ss[..1];
    assert ss1[..0] == [] && [w][..1] == [w];
    assert Performed(ms1, ss1, c) == [] + [w] == [w] && Answered(ms1, ss1, c) == [] + [];
    assert Performed(ms, ss, c) == [w] + [];
    assert w in [w];
  }

  // ---------------------------------------------------------------- attempts that begin alike

  /** What the attempts aborted since the last commit have written, each by itself. */
  function TriedSince(ms: seq<Mem>, ss: seq<Step>, c: Config): seq<seq<Write>>
    requires |ms| == |ss| + 1
  {
    if ss == [] then []
    else TriedAfter(TriedSince(ms[..|ss|], ss[..|ss| - 1], c), ms[|ss| - 1], ss[|ss| - 1], c)
  }

  function TriedAfter(ts: seq<seq<Write>>, m: Mem, s: Step, c: Config): seq<seq<Write>> {
    match s
    case Commit(_) => []
    case Abort(_, _, _) => ts + [Tried(m, s, c)]
    case _ => ts
  }

  predicate AllBegin(ts: seq<seq<Write>>, q: seq<Write>) {
    forall i :: 0 <= i < |ts| ==> ts[i] <= q
  }

  /** Every committing attempt first repeats all that the aborted attempts before it had written. */
  predicate Alike(ms: seq<Mem>, ss: seq<Step>, c: Config)
    requires |ms| == |ss| + 1
  {
    ss == [] ||
    var n := |ss| - 1;
    && Alike(ms[..|ss|], ss[..n], c)
    && (ss[n].Commit? ==> AllBegin(TriedSince(ms[..|ss|], ss[..n], c), BatchWrites(ms[n], c, ss[n].attempt)))
  }

  /** From here on, anything that begins with what was tried wipes out every trace of the aborts. */
  ghost predicate Absorbs(stored: Beliefs, should: Beliefs, ts: seq<seq<Write>>) {
    forall q: seq<Write> :: AllBegin(ts, q) ==> PutAll(stored, q) == PutAll(should, q)
  }

  lemma {:induction false} AlikeAbsorbs(ms: seq<Mem>, ss: seq<Step>, c: Config)
    requires Run(ms, ss, c) && Alike(ms, ss, c)
    ensures Absorbs(ms[|ss|].beliefs, OnePass(ms, ss, c), TriedSince(ms, ss, c))
  {
    if ss != [] {
      var n := |ss| - 1;
      RunPrefix(ms, ss, c, n);
      AlikeAbsorbs(ms[..|ss|], ss[..n], c);
      assert Next(ms[n], ss[n], ms[n + 1], c);
      var should, ts := OnePass(ms[..|ss|], ss[..n], c), TriedSince(ms[..|ss|], ss[..n], c);
      match ss[n]
      case Commit(a) =>
        OnePassCommits(ms, ss, c);
        assert PutAll(ms[n].beliefs, BatchWrites(ms[n], c, a)) == PutAll(should, BatchWrites(ms[n], c, a));
      case Abort(a, done, logged) =>
        assert Answered(ms, ss, c) == Answered(ms[..|ss|], ss[..n], c);
        AbortAbsorbs(ms[n].beliefs, should, ts, Tried(ms[n], ss[n], c));
      case _ =>
        assert Answered(ms, ss, c) == Answered(ms[..|ss|], ss[..n], c);
    }
  }

  lemma AbortAbsorbs(stored: Beliefs, should: Beliefs, ts: seq<seq<Write>>, tried: seq<Write>)
    requires Absorbs(stored, should, ts)
    ensures Absorbs(PutAll(stored, tried), should, ts + [tried])
  {
    forall q: seq<Write> | AllBegin(ts + [tried], q) ensures PutAll(PutAll(stored, tried), q) == PutAll(should, q) {
      assert (ts + [tried])[|ts|] == tried;
      forall i | 0 <= i < |ts| ensures ts[i] <= q { assert (ts + [tried])[i] == ts[i]; }
      assert AllBegin(ts, q);
      ReplayAbsorbed(stored, tried, q);
    }
  }

  // ---------------------------------------------------------------- the log

  /** The replayed log and the table say the same about `k`. */
  ghost predicate LogAgrees(m: Mem, k: string) {
    var read := Replay(Events(m.log));
    && (k in read <==> k in m.beliefs)
    && (k in read ==> read[k] == Replayed(m.beliefs[k].value, m.beliefs[k].confidence))
  }

  predicate AllWriteable(ws: seq<Write>, maxChars: int) {
    forall w :: w in ws ==> Fits(w.key, maxChars) && Fits(w.value, maxChars)
  }

  /** Nothing an attempt writes is cut in the log. */
  predicate AttemptsFit(ms: seq<Mem>, ss: seq<Step>, c: Config)
    requires |ms| == |ss| + 1
  {
    forall i :: 0 <= i < |ss| && (ss[i].Commit? || ss[i].Abort?) ==>
        AllWriteable(BatchWrites(ms[i], c, ss[i].attempt), c.maxChars)
  }

  /** Keys whose last write reached the table but, the audit write failing, not the log. */
  function Stale(ms: seq<Mem>, ss: seq<Step>, c: Config): set<string>
    requires |ms| == |ss| + 1
  {
    if ss == [] then {}
    else StaleAfter(Stale(ms[..|ss|], ss[..|ss| - 1], c), ms[|ss| - 1], ss[|ss| - 1], c)
  }

  function StaleAfter(before: set<string>, m: Mem, s: Step, c: Config): set<string> {
    match s
    case Commit(a) => before - Keys(BatchWrites(m, c, a))
    case Abort(a, done, logged) =>
      var ws := BatchWrites(m, c, a);
      if logged <= done <= |ws| then before - Keys(ws[..logged]) + Keys(ws[logged..done]) else before
    case _ => before
  }

  /** `read'` has caught up with `b'` on `keys` and is `read` elsewhere, where `b'` is `b`. */
  ghost predicate CaughtUp(read: map<string, Replayed>, b: Beliefs,
                           read': map<string, Replayed>, b': Beliefs, keys: set<string>) {
    && (forall k :: k in keys ==> k in read' && k in b' && read'[k] == Replayed(b'[k].value, b'[k].confidence))
    && (forall k :: k !in keys ==>
          (k in read' <==> k in read) && (k in read' ==> read'[k] == read[k]) && At(b', k) == At(b, k))
  }

  lemma CatchUpOne(read: map<string, Replayed>, b: Beliefs, read1: map<string, Replayed>, b1: Beliefs,
                   keys: set<string>, w: Write, maxChars: int)
    requires CaughtUp(read, b, read1, b1, keys) && Fits(w.key, maxChars) && Fits(w.value, maxChars)
    ensures CaughtUp(read, b, ReplayOne(read1, ClipEvent(PutEvent(b1, w), maxChars)), Put(b1, w), keys + {w.key})
  {
    ReplayPut(read1, b1, w, maxChars);
  }

  /** Fact rows written for `ws` replay to the beliefs after `ws`, and say nothing about other keys. */
  lemma {:induction false} ReplayWrites(es: seq<Event>, b: Beliefs, ws: seq<Write>, maxChars: int)
    requires AllWriteable(ws, maxChars)
    ensures CaughtUp(Replay(es), b, Replay(es + ClipAll(PutEvents(b, ws), maxChars)), PutAll(b, ws), Keys(ws))
  {
    if ws == [] {
      assert es + ClipAll(PutEvents(b, ws), maxChars) == es;
    } else {
      var front, w := ws[..|ws| - 1], ws[|ws| - 1];
      ReplayWrites(es, b, front, maxChars);
      var mid := es + ClipAll(PutEvents(b, front), maxChars);
      var e := ClipEvent(PutEvent(PutAll(b, front), w), maxChars);
      assert es + ClipAll(PutEvents(b, ws), maxChars) == mid + [e];
      ReplaySnoc(mid, e);
      CatchUpOne(Replay(es), b, Replay(mid), PutAll(b, front), Keys(front), w, maxChars);
      KeysSnoc(front, w);
      assert ws == front + [w];
    }
  }

  lemma PutAllElsewhere(b: Beliefs, ws: seq<Write>, k: string)
    requires k !in Keys(ws)
    ensures At(PutAll(b, ws), k) == At(b, k)
  {
    PutAllActs(b, ws, k);
    EffectMeaning(ws, k);
  }

  /** A step that logs `ws` and also writes `more` to the table. */
  lemma WritesAgree(m: Mem, m': Mem, c: Config, ws: seq<Write>, more: seq<Write>, stale: set<string>)
    requires AllWriteable(ws, c.maxChars) && forall k :: k !in stale ==> LogAgrees(m, k)
    requires m'.beliefs == PutAll(PutAll(m.beliefs, ws), more)
    requires Events(m'.log) == Events(m.log) + ClipAll(PutEvents(m.beliefs, ws), c.maxChars)
    ensures forall k :: k !in stale - Keys(ws) + Keys(more) ==> LogAgrees(m', k)
  {
    ReplayWrites(Events(m.log), m.beliefs, ws, c.maxChars);
    forall k | k !in stale - Keys(ws) + Keys(more) ensures LogAgrees(m', k) {
      PutAllElsewhere(PutAll(m.beliefs, ws), more, k);
      assert At(m'.beliefs, k) == At(PutAll(m.beliefs, ws), k);
      if k !in Keys(ws) { assert LogAgrees(m, k); }
    }
  }

  /** In every run whose writes fit the clamp the audit rows rebuild every key that is not stale. */
  lemma {:induction false} LogOffStale(ms: seq<Mem>, ss: seq<Step>, c: Config)
    requires Run(ms, ss, c) && Start(ms[0]) && AttemptsFit(ms, ss, c) && forall k :: LogAgrees(ms[0], k)
    ensures forall k :: k !in Stale(ms, ss, c) ==> LogAgrees(ms[|ss|], k)
  {
    if ss != [] {
      var n := |ss| - 1;
      RunPrefix(ms, ss, c, n);
      RunOrdered(ms, ss, c, n);
      LogOffStale(ms[..|ss|], ss[..n], c);
      assert Next(ms[n], ss[n], ms[n + 1], c);
      StepTells(ms[n], ss[n], ms[n + 1], c, Stale(ms[..|ss|], ss[..n], c));
    }
  }

  lemma StepTells(m: Mem, s: Step, m': Mem, c: Config, stale: set<string>)
    requires Start(m) && Next(m, s, m', c) && forall k :: k !in stale ==> LogAgrees(m, k)
    requires s.Commit? || s.Abort? ==> AllWriteable(BatchWrites(m, c, s.attempt), c.maxChars)
    ensures forall k :: k !in StaleAfter(stale, m, s, c) ==> LogAgrees(m', k)
  {
    match s
    case Append(e, id) => AppendAgrees(m, m', e, id, stale);
    case Idle =>
    case Commit(a) =>
      CommitMoves(m, c, a, m.cursor);
      WritesAgree(m, m', c, BatchWrites(m, c, a), [], stale);
    case Abort(a, done, logged) => AbortTells(m, m', c, a, done, logged, stale);
  }

  lemma AbortTells(m: Mem, m': Mem, c: Config, a: Attempt, done: nat, logged: nat, stale: set<string>)
    requires Increasing(m.log) && forall k :: k !in stale ==> LogAgrees(m, k)
    requires logged <= done <= |BatchWrites(m, c, a)| && m' == Aborted(m, c, a, done, logged)
    requires AllWriteable(BatchWrites(m, c, a), c.maxChars)
    ensures var ws := BatchWrites(m, c, a);
            forall k :: k !in stale - Keys(ws[..logged]) + Keys(ws[logged..done]) ==> LogAgrees(m', k)
  {
    var ws := BatchWrites(m, c, a);
    AbortMoves(m, c, a, done, logged, m.cursor);
    assert ws[..done] == ws[..logged] + ws[logged..done];
    PutConcat(m.beliefs, ws[..logged], ws[logged..done]);
    WritesAgree(m, m', c, ws[..logged], ws[logged..done], stale);
  }

  lemma AppendAgrees(m: Mem, m': Mem, e: Event, id: int, stale: set<string>)
    requires Increasing(m.log) && m.cursor <= LastId(m.log) < id && (e.ChatCompleted? || e.OtherEvent?)
    requires m' == m.(log := m.log + [AuditRow(id, e)]) && forall k :: k !in stale ==> LogAgrees(m, k)
    ensures forall k :: k !in stale ==> LogAgrees(m', k)
  {
    AppendMoves(m, AuditRow(id, e), m.cursor);
    ReplaySnoc(Events(m.log), e);
    forall k | k !in stale ensures LogAgrees(m', k) { assert LogAgrees(m, k); }
  }

  lemma AgreesEverywhere(m: Mem)
    requires forall k :: LogAgrees(m, k)
    ensures Replay(Events(m.log)) == Summary(m.beliefs)
  {
    var read, told := Replay(Events(m.log)), Summary(m.beliefs);
    forall k ensures k in read <==> k in told ensures k in read ==> read[k] == told[k] {
      assert LogAgrees(m, k);
    }
  }

  ghost predicate Among(k: string, ts: seq<seq<Write>>) {
    exists i :: 0 <= i < |ts| && k in Keys(ts[i])
  }

  lemma AmongKeys(k: string, ts: seq<seq<Write>>, ws: seq<Write>)
    requires Among(k, ts) && AllBegin(ts, ws)
    ensures k in Keys(ws)
  {
    var i :| 0 <= i < |ts| && k in Keys(ts[i]);
    PrefixKeys(ts[i], ws);
  }

  lemma {:induction false} StaleWasTried(ms: seq<Mem>, ss: seq<Step>, c: Config, k: string)
    requires Run(ms, ss, c) && Alike(ms, ss, c) && k in Stale(ms, ss, c)
    ensures Among(k, TriedSince(ms, ss, c))
  {
    var n := |ss| - 1;
    RunPrefix(ms, ss, c, n);
    assert Next(ms[n], ss[n], ms[n + 1], c);
    if k in Stale(ms[..|ss|], ss[..n], c) { StaleWasTried(ms[..|ss|], ss[..n], c, k); }
    StaleStep(ms[n], ss[n], c, Stale(ms[..|ss|], ss[..n], c), TriedSince(ms[..|ss|], ss[..n], c), k);
  }

  lemma StaleStep(m: Mem, s: Step, c: Config, before: set<string>, ts: seq<seq<Write>>, k: string)
    requires k in StaleAfter(before, m, s, c) && (k in before ==> Among(k, ts))
    requires s.Commit? ==> AllBegin(ts, BatchWrites(m, c, s.attempt))
    ensures Among(k, TriedAfter(ts, m, s, c))
  {
    match s
    case Commit(a) => AmongKeys(k, ts, BatchWrites(m, c, a));
    case Abort(a, done, logged) =>
      var ws, tried := BatchWrites(m, c, a), Tried(m, s, c);
      assert (ts + [tried])[|ts|] == tried;
      if k in before {
        var i :| 0 <= i < |ts| && k in Keys(ts[i]);
        assert (ts + [tried])[i] == ts[i];
      } else {
        var w :| w in ws[logged..done] && w.key == k;
        assert w in ws[..done];
      }
    case _ =>
  }

  /** A run in which retries begin as the aborted attempts did, and none is pending, holds one pass over
      the committed answers, and its audit rows alone rebuild that. */
  lemma AlikeConverges(ms: seq<Mem>, ss: seq<Step>, c: Config)
    requires Run(ms, ss, c) && Alike(ms, ss, c) && TriedSince(ms, ss, c) == []
    ensures ms[|ss|].beliefs == OnePass(ms, ss, c)
    ensures Start(ms[0]) && AttemptsFit(ms, ss, c) && (forall k :: LogAgrees(ms[0], k)) ==>
              Replay(Events(ms[|ss|].log)) == Summary(ms[|ss|].beliefs)
  {
    AlikeAbsorbs(ms, ss, c);
    assert PutAll(ms[|ss|].beliefs, []) == PutAll(OnePass(ms, ss, c), []);
    if Start(ms[0]) && AttemptsFit(ms, ss, c) && forall k :: LogAgrees(ms[0], k) {
      LogOffStale(ms, ss, c);
      forall k ensures k !in Stale(ms, ss, c) {
        if k in Stale(ms, ss, c) { StaleWasTried(ms, ss, c, k); }
      }
      AgreesEverywhere(ms[|ss|]);
    }
  }

  // ---------------------------------------------------------------- one fixed extraction

  /** Every attempt answers as `f` does: a retry repeats the attempt before it, failed calls included. */
  ghost predicate SameAnswers(ss: seq<Step>, f: Attempt) {
    forall i :: 0 <= i < |ss| && (ss[i].Commit? || ss[i].Abort?) ==> ss[i].attempt == f
  }

  lemma AppendedBatch(m: Mem, row: AuditRow, c: Config, a: Attempt)
    ensures BatchWrites(m, c, a) <= BatchWrites(m.(log := m.log + [row]), c, a)
  {
    var m' := m.(log := m.log + [row]);
    assert m'.log[..|m'.log| - 1] == m.log;
    var old', new' := Batch(m, c), Batch(m', c);
    assert new' == old' + new'[|old'|..];
    WritesConcat(old', new'[|old'|..], a);
  }

  lemma BeginLonger(ts: seq<seq<Write>>, q: seq<Write>, r: seq<Write>)
    requires AllBegin(ts, q) && q <= r
    ensures AllBegin(ts, r)
  {
    forall i | 0 <= i < |ts| ensures ts[i] <= r { assert ts[i] <= q; }
  }

  lemma {:induction false} FixedIsAlike(ms: seq<Mem>, ss: seq<Step>, c: Config, f: Attempt)
    requires Run(ms, ss, c) && Start(ms[0]) && SameAnswers(ss, f)
    ensures Alike(ms, ss, c) && AllBegin(TriedSince(ms, ss, c), BatchWrites(ms[|ss|], c, f))
  {
    if ss != [] {
      var n := |ss| - 1;
      RunPrefix(ms, ss, c, n);
      RunOrdered(ms, ss, c, n);
      FixedIsAlike(ms[..|ss|], ss[..n], c, f);
      assert Next(ms[n], ss[n], ms[n + 1], c);
      FixedStep(ms[n], ss[n], ms[n + 1], c, f, TriedSince(ms[..|ss|], ss[..n], c));
    }
  }

  lemma FixedStep(m: Mem, s: Step, m': Mem, c: Config, f: Attempt, ts: seq<seq<Write>>)
    requires Start(m) && Next(m, s, m', c) && AllBegin(ts, BatchWrites(m, c, f))
    requires s.Commit? || s.Abort? ==> s.attempt == f
    ensures AllBegin(TriedAfter(ts, m, s, c), BatchWrites(m', c, f))
  {
    match s
    case Append(e, id) =>
      AppendedBatch(m, AuditRow(id, e), c, f);
      BeginLonger(ts, BatchWrites(m, c, f), BatchWrites(m', c, f));
    case Idle =>
    case Commit(_) =>
    case Abort(_, done, logged) =>
      AbortMoves(m, c, f, done, logged, m.cursor);
      assert BatchWrites(m', c, f) == BatchWrites(m, c, f);
  }

  lemma {:induction false} FixedAnswers(ms: seq<Mem>, ss: seq<Step>, c: Config, f: Attempt)
    requires |ms| == |ss| + 1 && SameAnswers(ss, f)
    ensures Answered(ms, ss, c) == AllWrites(CommittedRows(ms, ss, c), f)
  {
    if ss != [] {
      var n := |ss| - 1;
      var rows := CommittedRows(ms[..|ss|], ss[..n], c);
      FixedAnswers(ms[..|ss|], ss[..n], c, f);
      if ss[n].Commit? {
        WritesConcat(rows, Batch(ms[n], c), f);
      } else {
        assert rows + [] == rows;
      }
    }
  }

  /** Processing every chat row up to the cursor exactly once, in id order, from the start state. */
  function Exact(start: Mem, m: Mem, f: Attempt): Beliefs {
    PutAll(start.beliefs, AllWrites(Between(m.log, start.cursor, m.cursor), f))
  }

  /** With one fixed extraction, whatever was appended, aborted and retried, a run with no abort since its
      last commit holds exactly what one pass over the chat rows up to the cursor gives; and if nothing
      extracted is cut in the log, the audit rows alone rebuild it. */
  lemma ExactlyOnce(ms: seq<Mem>, ss: seq<Step>, c: Config, f: Attempt)
    requires Run(ms, ss, c) && Start(ms[0]) && SameAnswers(ss, f) && TriedSince(ms, ss, c) == []
    ensures ms[|ss|].beliefs == Exact(ms[0], ms[|ss|], f)
    ensures AttemptsFit(ms, ss, c) && (forall k :: LogAgrees(ms[0], k)) ==>
              Replay(Events(ms[|ss|].log)) == Summary(ms[|ss|].beliefs)
  {
    FixedIsAlike(ms, ss, c, f);
    FixedAnswers(ms, ss, c, f);
    AlikeConverges(ms, ss, c);
    RunCovers(ms, ss, c);
  }

  /** Even while a batch is half done, the next commit lands on the exactly-once state. */
  lemma NextCommitIsExact(ms: seq<Mem>, ss: seq<Step>, c: Config, f: Attempt, m': Mem)
    requires Run(ms, ss, c) && Start(ms[0]) && SameAnswers(ss, f) && Next(ms[|ss|], Commit(f), m', c)
    ensures m'.beliefs == Exact(ms[0], m', f)
  {
    var ms', ss' := ms + [m'], ss + [Commit(f)];
    forall i | 0 <= i < |ss'| ensures Next(ms'[i], ss'[i], ms'[i + 1], c) {
      if i < |ss| { assert Next(ms[i], ss[i], ms[i + 1], c); }
    }
    ExactlyOnce(ms', ss', c, f);
  }
}
