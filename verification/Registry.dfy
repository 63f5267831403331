/** The worker registry: round-robin iterators rebuilt on every registration, against a scan of the workers. */
module Registry {
  import opened Prelude

  datatype Worker = Worker(id: string, capabilities: seq<string>)

  /** An endless iterator over a list, and the place it stands at. */
  datatype Cycle = Cycle(ids: seq<string>, at: nat)

  function After(at: nat, k: nat): nat {
    if at + 1 == k then 0 else at + 1
  }

  /** The dictionary keeps the place of a worker that registers again. */
  function Put(ws: seq<Worker>, w: Worker): seq<Worker> {
    if ws == [] then [w]
    else if ws[0].id == w.id then [w] + ws[1..]
    else [ws[0]] + Put(ws[1..], w)
  }

  function Find(ws: seq<Worker>, cap: string): seq<Worker> {
    if ws == [] then []
    else Find(ws[..|ws| - 1], cap) + if cap in ws[|ws| - 1].capabilities then [ws[|ws| - 1]] else []
  }

  /** `id`, once for each time `cap` is listed. */
  function Copies(id: string, caps: seq<string>, cap: string): seq<string> {
    if caps == [] then []
    else Copies(id, caps[..|caps| - 1], cap) + if caps[|caps| - 1] == cap then [id] else []
  }

  function IdsFor(ws: seq<Worker>, cap: string): seq<string> {
    if ws == [] then []
    else IdsFor(ws[..|ws| - 1], cap) + Copies(ws[|ws| - 1].id, ws[|ws| - 1].capabilities, cap)
  }

  function Listed(perCap: map<string, seq<string>>, cap: string): seq<string> {
    if cap in perCap then perCap[cap] else []
  }

  predicate NoneEmpty(perCap: map<string, seq<string>>) {
    forall cap :: cap in perCap ==> perCap[cap] != []
  }

  function Cycled(rr: map<string, Cycle>, cap: string): seq<string> {
    if cap in rr then rr[cap].ids else []
  }

  /** The iterators are those of the current workers; how far each has moved is left open. */
  ghost predicate Current(ws: seq<Worker>, rr: map<string, Cycle>) {
    && (forall cap :: Cycled(rr, cap) == IdsFor(ws, cap))
    && (forall cap :: cap in rr ==> rr[cap].at < |rr[cap].ids|)
  }

  /** `next` on the iterator of `cap`; `None` is the error for a capability nobody has. */
  function Picked(rr: map<string, Cycle>, cap: string): (Option<string>, map<string, Cycle>) {
    if cap !in rr || rr[cap].at >= |rr[cap].ids| then (None, rr)
    else
      var c := rr[cap];
      (Some(c.ids[c.at]), rr[cap := Cycle(c.ids, After(c.at, |c.ids|))])
  }

  lemma PickedKeepsCurrent(ws: seq<Worker>, rr: map<string, Cycle>, cap: string)
    requires Current(ws, rr)
    ensures Current(ws, Picked(rr, cap).1)
  {
    var rr' := Picked(rr, cap).1;
    forall c ensures Cycled(rr', c) == IdsFor(ws, c) {
      assert Cycled(rr, c) == IdsFor(ws, c);
    }
  }

  function ListedBy(caps: seq<string>): set<string> {
    set c | c in caps
  }

  /** The capabilities that somebody lists. */
  function Listings(ws: seq<Worker>): set<string> {
    if ws == [] then {} else Listings(ws[..|ws| - 1]) + ListedBy(ws[|ws| - 1].capabilities)
  }

  /** What a rebuild makes of the workers. */
  function Rebuilt(ws: seq<Worker>): map<string, Cycle> {
    map cap | cap in Listings(ws) :: Cycle(IdsFor(ws, cap), 0)
  }

  lemma {:induction false} ListedIff(ws: seq<Worker>, cap: string)
    ensures cap in Listings(ws) <==> IdsFor(ws, cap) != []
  {
    if ws != [] {
      ListedIff(ws[..|ws| - 1], cap);
      CopiesAre(ws[|ws| - 1].id, ws[|ws| - 1].capabilities, cap);
    }
  }

  lemma RebuiltCurrent(ws: seq<Worker>)
    ensures Current(ws, Rebuilt(ws))
  {
    forall cap ensures Cycled(Rebuilt(ws), cap) == IdsFor(ws, cap) && (cap in Rebuilt(ws) ==> IdsFor(ws, cap) != []) {
      ListedIff(ws, cap);
    }
  }

  function Cycles(perCap: map<string, seq<string>>): map<string, Cycle> {
    map cap | cap in perCap :: Cycle(perCap[cap], 0)
  }

  lemma CyclesRebuild(perCap: map<string, seq<string>>, ws: seq<Worker>)
    requires NoneEmpty(perCap) && forall cap :: Listed(perCap, cap) == IdsFor(ws, cap)
    ensures Cycles(perCap) == Rebuilt(ws)
  {
    forall cap ensures cap in perCap <==> cap in Listings(ws) {
      assert Listed(perCap, cap) == IdsFor(ws, cap);
      ListedIff(ws, cap);
    }
    forall cap | cap in perCap ensures perCap[cap] == IdsFor(ws, cap) {
      assert Listed(perCap, cap) == IdsFor(ws, cap);
    }
  }

  lemma IdsSnoc(ws: seq<Worker>, i: nat, cap: string)
    requires i < |ws|
    ensures IdsFor(ws[..i + 1], cap) == IdsFor(ws[..i], cap) + Copies(ws[i].id, ws[i].capabilities, cap)
  {
    assert ws[..i + 1][..i] == ws[..i];
  }

  class WorkerRegistry {
    var workers: seq<Worker>
    var rr: map<string, Cycle>

    constructor ()
      ensures workers == [] && rr == map[]
    {
      workers, rr := [], map[];
    }

    /** `None` is a message that does not parse as a registration. */
    method OnRegister(reg: Option<Worker>)
      modifies this
      ensures State(workers, rr) == Do(State(old(workers), old(rr)), Register(reg))
    {
      if reg.None? { return; }
      workers := Put(workers, reg.value);
      RebuildRR();
    }

    method RebuildRR()
      modifies `rr
      ensures rr == Rebuilt(workers)
    {
      var perCap: map<string, seq<string>> := map[];
      for i := 0 to |workers|
        invariant forall cap :: Listed(perCap, cap) == IdsFor(workers[..i], cap)
        invariant NoneEmpty(perCap)
      {
        ghost var before := perCap;
        perCap := AddWorker(perCap, workers[i]);
        forall cap ensures Listed(perCap, cap) == IdsFor(workers[..i + 1], cap) {
          assert Listed(before, cap) == IdsFor(workers[..i], cap);
          IdsSnoc(workers, i, cap);
        }
      }
      assert workers[..|workers|] == workers;
      CyclesRebuild(perCap, workers);
      rr := Cycles(perCap);
    }

    /** The inner loop: `w` under each capability it lists. */
    static method AddWorker(perCap: map<string, seq<string>>, w: Worker) returns (r: map<string, seq<string>>)
      requires NoneEmpty(perCap)
      ensures NoneEmpty(r)
      ensures forall cap :: Listed(r, cap) == Listed(perCap, cap) + Copies(w.id, w.capabilities, cap)
    {
      r := perCap;
      for j := 0 to |w.capabilities|
        invariant NoneEmpty(r)
        invariant forall cap :: Listed(r, cap) == Listed(perCap, cap) + Copies(w.id, w.capabilities[..j], cap)
      {
        var listed := w.capabilities[j];
        ghost var before := r;
        r := r[listed := Listed(r, listed) + [w.id]];
        forall cap ensures Listed(r, cap) == Listed(perCap, cap) + Copies(w.id, w.capabilities[..j + 1], cap) {
          assert Listed(before, cap) == Listed(perCap, cap) + Copies(w.id, w.capabilities[..j], cap);
          OneMore(before, perCap, w, j, cap);
        }
      }
      assert w.capabilities[..|w.capabilities|] == w.capabilities;
    }

    method Pick(cap: string) returns (id: Option<string>)
      requires Current(workers, rr)
      modifies `rr
      ensures Current(workers, rr) && (id, rr) == Picked(old(rr), cap)
    {
      PickedKeepsCurrent(workers, rr, cap);
      if cap !in rr { return None; }
      var c := rr[cap];
      id := Some(c.ids[c.at]);
      rr := rr[cap := Cycle(c.ids, After(c.at, |c.ids|))];
    }
  }

  lemma OneMore(before: map<string, seq<string>>, start: map<string, seq<string>>, w: Worker, j: nat, cap: string)
    requires j < |w.capabilities|
    requires Listed(before, cap) == Listed(start, cap) + Copies(w.id, w.capabilities[..j], cap)
    ensures Listed(before[w.capabilities[j] := Listed(before, w.capabilities[j]) + [w.id]], cap)
         == Listed(start, cap) + Copies(w.id, w.capabilities[..j + 1], cap)
  {
    CopiesSnoc(w, j, cap);
    Regroup(Listed(start, cap), Copies(w.id, w.capabilities[..j], cap), [w.id]);
  }

  lemma CopiesSnoc(w: Worker, j: nat, cap: string)
    requires j < |w.capabilities|
    ensures Copies(w.id, w.capabilities[..j + 1], cap)
         == Copies(w.id, w.capabilities[..j], cap) + if w.capabilities[j] == cap then [w.id] else []
  {
    assert w.capabilities[..j + 1][..j] == w.capabilities[..j];
  }

  // ---------------------------------------------------------------- picks and the scan

  lemma {:induction false} CopiesAre(id: string, caps: seq<string>, cap: string)
    ensures (Copies(id, caps, cap) != [] <==> cap in caps) && (id in Copies(id, caps, cap) <==> cap in caps)
    ensures forall x :: x in Copies(id, caps, cap) ==> x == id
  {
    if caps != [] { CopiesAre(id, caps[..|caps| - 1], cap); }
  }

  predicate HasId(ws: seq<Worker>, id: string) {
    exists i :: 0 <= i < |ws| && ws[i].id == id
  }

  /** The iterator of a capability runs over exactly the workers that a scan finds. */
  lemma {:induction false} IdsAreFound(ws: seq<Worker>, cap: string, id: string)
    ensures id in IdsFor(ws, cap) <==> HasId(Find(ws, cap), id)
    ensures IdsFor(ws, cap) != [] <==> Find(ws, cap) != []
  {
    if ws != [] {
      var front, w := ws[..|ws| - 1], ws[|ws| - 1];
      var earlier, more := IdsFor(front, cap), Copies(w.id, w.capabilities, cap);
      IdsAreFound(front, cap, id);
      CopiesAre(w.id, w.capabilities, cap);
      assert IdsFor(ws, cap) == earlier + more;
      InConcat(earlier, more, id);
      assert id in more <==> cap in w.capabilities && id == w.id;
      if cap in w.capabilities {
        assert Find(ws, cap) == Find(front, cap) + [w];
        FoundSnoc(Find(front, cap), w, id);
      } else {
        assert Find(ws, cap) == Find(front, cap) + [] == Find(front, cap);
      }
    }
  }

  lemma InConcat(a: seq<string>, b: seq<string>, x: string)
    ensures x in a + b <==> x in a || x in b
  {
  }

  lemma FoundSnoc(ws: seq<Worker>, w: Worker, id: string)
    ensures HasId(ws + [w], id) <==> HasId(ws, id) || w.id == id
  {
    if HasId(ws, id) {
      var i :| 0 <= i < |ws| && ws[i].id == id;
      assert (ws + [w])[i].id == id;
    }
    assert (ws + [w])[|ws|] == w;
  }

  /** A pick succeeds exactly when the scan finds somebody, and then gives one of those it finds. */
  lemma PickIffFound(ws: seq<Worker>, rr: map<string, Cycle>, cap: string)
    requires Current(ws, rr)
    ensures Picked(rr, cap).0.Some? <==> Find(ws, cap) != []
    ensures Picked(rr, cap).0.Some? ==> HasId(Find(ws, cap), Picked(rr, cap).0.value)
  {
    assert Cycled(rr, cap) == IdsFor(ws, cap);
    IdsAreFound(ws, cap, if Picked(rr, cap).0.Some? then Picked(rr, cap).0.value else "");
  }

  // ---------------------------------------------------------------- any run

  datatype Op = Register(reg: Option<Worker>) | Pick(cap: string)

  datatype State = State(workers: seq<Worker>, rr: map<string, Cycle>)

  function Do(s: State, op: Op): State {
    match op
    case Register(reg) => if reg.None? then s else State(Put(s.workers, reg.value), Rebuilt(Put(s.workers, reg.value)))
    case Pick(cap) => s.(rr := Picked(s.rr, cap).1)
  }

  function Run(s: State, ops: seq<Op>): State {
    if ops == [] then s else Do(Run(s, ops[..|ops| - 1]), ops[|ops| - 1])
  }

  lemma {:induction false} RunCurrent(s: State, ops: seq<Op>)
    requires Current(s.workers, s.rr)
    ensures Current(Run(s, ops).workers, Run(s, ops).rr)
  {
    if ops != [] {
      var t := Run(s, ops[..|ops| - 1]);
      RunCurrent(s, ops[..|ops| - 1]);
      match ops[|ops| - 1]
      case Register(reg) => if reg.Some? { RebuiltCurrent(Put(t.workers, reg.value)); }
      case Pick(cap) => PickedKeepsCurrent(t.workers, t.rr, cap);
    }
  }

  /** After any registrations and picks, picking agrees with the scan. */
  lemma PickAfterRun(ops: seq<Op>, cap: string)
    ensures var s := Run(State([], map[]), ops);
            && (Picked(s.rr, cap).0.Some? <==> Find(s.workers, cap) != [])
            && (Picked(s.rr, cap).0.Some? ==> HasId(Find(s.workers, cap), Picked(s.rr, cap).0.value))
  {
    RunCurrent(State([], map[]), ops);
    var s := Run(State([], map[]), ops);
    PickIffFound(s.workers, s.rr, cap);
  }

  predicate DistinctIds(ws: seq<Worker>) {
    forall i, j :: 0 <= i < j < |ws| ==> ws[i].id != ws[j].id
  }

  lemma HasIdTail(ws: seq<Worker>, id: string)
    requires ws != []
    ensures HasId(ws, id) <==> ws[0].id == id || HasId(ws[1..], id)
  {
    if i :| 0 <= i < |ws| && ws[i].id == id { assert i > 0 ==> ws[1..][i - 1].id == id; }
    if i :| 0 <= i < |ws[1..]| && ws[1..][i].id == id { assert ws[i + 1].id == id; }
  }

  /** Registering replaces the entry of that id where it stands, or adds one at the end. */
  lemma {:induction false} PutUpdates(ws: seq<Worker>, w: Worker)
    requires DistinctIds(ws)
    ensures |Put(ws, w)| == if HasId(ws, w.id) then |ws| else |ws| + 1
    ensures forall i :: 0 <= i < |ws| ==> Put(ws, w)[i] == if ws[i].id == w.id then w else ws[i]
    ensures !HasId(ws, w.id) ==> Put(ws, w)[|ws|] == w
  {
    if ws == [] { return; }
    HasIdTail(ws, w.id);
    if ws[0].id != w.id {
      var tail := ws[1..];
      PutUpdates(tail, w);
      forall i | 0 <= i < |ws| ensures Put(ws, w)[i] == if ws[i].id == w.id then w else ws[i] {
        if i > 0 { assert ws[i] == tail[i - 1] && Put(ws, w)[i] == Put(tail, w)[i - 1]; }
      }
    }
  }

  lemma PutKeepsDistinct(ws: seq<Worker>, w: Worker)
    requires DistinctIds(ws)
    ensures DistinctIds(Put(ws, w))
  {
    PutUpdates(ws, w);
  }

  // ---------------------------------------------------------------- fairness

  /** The ids that the picks of `cap` gave in a run. */
  function Given(s: State, ops: seq<Op>, cap: string): seq<string> {
    if ops == [] then []
    else
      var front, last := ops[..|ops| - 1], ops[|ops| - 1];
      var id := if last == Pick(cap) then Picked(Run(s, front).rr, cap).0 else None;
      Given(s, front, cap) + if id.Some? then [id.value] else []
  }

  /** Where an iterator that stands at `at` stands `n` picks later. */
  function Place(at: nat, n: nat, k: nat): (p: nat)
    requires at < k
    ensures p < k
  {
    if n == 0 then at else After(Place(at, n - 1, k), k)
  }

  /** `n` picks in a row. */
  function Turns(ids: seq<string>, at: nat, n: nat): seq<string>
    requires at < |ids|
  {
    if n == 0 then [] else Turns(ids, at, n - 1) + [ids[Place(at, n - 1, |ids|)]]
  }

  predicate OnlyPicks(ops: seq<Op>) {
    forall i :: 0 <= i < |ops| ==> ops[i].Pick?
  }

  /** Between registrations the picks of one capability walk round its list, whatever else is picked. */
  lemma {:induction false} GivenIsTurns(s: State, ops: seq<Op>, cap: string)
    requires OnlyPicks(ops) && cap in s.rr && s.rr[cap].at < |s.rr[cap].ids|
    ensures var t := Run(s, ops); var n, c := |Given(s, ops, cap)|, s.rr[cap];
            && cap in t.rr && t.rr[cap] == Cycle(c.ids, Place(c.at, n, |c.ids|))
            && Given(s, ops, cap) == Turns(c.ids, c.at, n)
  {
    if ops != [] { GivenIsTurns(s, ops[..|ops| - 1], cap); }
  }

  function Times(s: seq<string>, id: string): nat {
    if s == [] then 0 else Times(s[..|s| - 1], id) + if s[|s| - 1] == id then 1 else 0
  }

  lemma FewerTimes(d: nat, q: nat, k: nat)
    requires d < q
    ensures d * k + k <= q * k
  {
    assert (d + 1) * k <= q * k;
  }

  lemma Quotient(n: nat, q: nat, r: nat, k: nat)
    requires r < k && n == q * k + r
    ensures n / k == q && n % k == r
  {
    if n / k < q { FewerTimes(n / k, q, k); }
    if n / k > q { FewerTimes(q, n / k, k); }
  }

  /** Full rounds in `n` picks, and the picks of the round that has begun. */
  function Rounds(n: nat, k: nat): (nat, nat) {
    if n == 0 then (0, 0) else OneMorePick(Rounds(n - 1, k), k)
  }

  function OneMorePick(r: (nat, nat), k: nat): (nat, nat) {
    if r.1 + 1 == k then (r.0 + 1, 0) else (r.0, r.1 + 1)
  }

  lemma {:induction false} RoundsDivide(n: nat, k: nat)
    requires k > 0
    ensures Rounds(n, k).1 < k && n == Rounds(n, k).0 * k + Rounds(n, k).1
    ensures Rounds(n, k) == (n / k, n % k)
  {
    if n > 0 {
      RoundsDivide(n - 1, k);
      var (full, rest) := Rounds(n - 1, k);
      assert (full + 1) * k == full * k + k;
    }
    Quotient(n, Rounds(n, k).0, Rounds(n, k).1, k);
  }

  /** Steps from place `at` round to place `j`. */
  function Away(at: nat, j: nat, k: nat): nat
    requires at < k && j < k
  {
    if j >= at then j - at else j + k - at
  }

  lemma {:induction false} PlaceInRound(at: nat, n: nat, k: nat)
    requires at < k
    ensures Rounds(n, k).1 < k
    ensures Place(at, n, k) == if at + Rounds(n, k).1 < k then at + Rounds(n, k).1 else at + Rounds(n, k).1 - k
  {
    if n > 0 { PlaceInRound(at, n - 1, k); }
  }

  /** What the worker at place `j` has had of those rounds. */
  function Share(at: nat, j: nat, k: nat, r: (nat, nat)): nat
    requires at < k && j < k
  {
    r.0 + if Away(at, j, k) < r.1 then 1 else 0
  }

  /** Every full round gives each worker one pick; the rest of the last round goes to the next in line. */
  lemma {:induction false} TurnsShared(ids: seq<string>, at: nat, n: nat, j: nat)
    requires Distinct(ids) && at < |ids| && j < |ids|
    ensures Times(Turns(ids, at, n), ids[j]) == Share(at, j, |ids|, Rounds(n, |ids|))
  {
    if n > 0 {
      TurnsShared(ids, at, n - 1, j);
      PlaceInRound(at, n - 1, |ids|);
      var now := Place(at, n - 1, |ids|);
      TimesSnoc(Turns(ids, at, n - 1), ids[now], ids[j]);
      assert ids[now] == ids[j] <==> now == j by { assert now < j || now == j || j < now; }
      ShareStep(at, now, j, |ids|, Rounds(n - 1, |ids|));
    }
  }

  lemma ShareStep(at: nat, now: nat, j: nat, k: nat, r: (nat, nat))
    requires at < k && j < k && r.1 < k && now == if at + r.1 < k then at + r.1 else at + r.1 - k
    ensures Share(at, j, k, OneMorePick(r, k)) == Share(at, j, k, r) + if now == j then 1 else 0
  {
  }

  lemma TimesSnoc(s: seq<string>, x: string, id: string)
    ensures Times(s + [x], id) == Times(s, id) + if x == id then 1 else 0
  {
    assert (s + [x])[..|s|] == s;
  }

  /** The registration names the capability more than once. */
  predicate ListsTwice(caps: seq<string>, cap: string) {
    exists i, j :: 0 <= i < j < |caps| && caps[i] == cap == caps[j]
  }

  lemma {:induction false} CopiesLength(id: string, caps: seq<string>, cap: string)
    ensures |Copies(id, caps, cap)| >= 2 <==> ListsTwice(caps, cap)
    ensures forall x :: x in Copies(id, caps, cap) ==> x == id
    ensures |Copies(id, caps, cap)| >= 1 <==> cap in caps
  {
    if caps != [] {
      var front, last := caps[..|caps| - 1], caps[|caps| - 1];
      CopiesLength(id, front, cap);
      assert caps == front + [last];
      TwiceSnoc(front, last, cap);
    }
  }

  lemma TwiceSnoc(caps: seq<string>, last: string, cap: string)
    ensures ListsTwice(caps + [last], cap) <==> ListsTwice(caps, cap) || (last == cap && cap in caps)
  {
    var all := caps + [last];
    if ListsTwice(caps, cap) {
      var i, j :| 0 <= i < j < |caps| && caps[i] == cap == caps[j];
      assert all[i] == cap == all[j];
    }
    if last == cap && cap in caps {
      var i :| 0 <= i < |caps| && caps[i] == cap;
      assert all[i] == cap == all[|caps|];
    }
  }

  lemma CopiesOnce(id: string, caps: seq<string>, cap: string)
    requires !ListsTwice(caps, cap)
    ensures Copies(id, caps, cap) == if cap in caps then [id] else []
  {
    CopiesLength(id, caps, cap);
    if cap in caps { assert Copies(id, caps, cap)[0] in Copies(id, caps, cap); }
  }

  /** Nobody lists the capability twice. */
  predicate OnceEach(ws: seq<Worker>, cap: string) {
    forall i :: 0 <= i < |ws| ==> !ListsTwice(ws[i].capabilities, cap)
  }

  /** When nobody lists a capability twice, its iterator runs over what the scan finds, in that order. */
  lemma {:induction false} IdsAreFind(ws: seq<Worker>, cap: string)
    requires OnceEach(ws, cap) && DistinctIds(ws)
    ensures |IdsFor(ws, cap)| == |Find(ws, cap)| && Distinct(IdsFor(ws, cap))
    ensures forall i :: 0 <= i < |Find(ws, cap)| ==> IdsFor(ws, cap)[i] == Find(ws, cap)[i].id
  {
    if ws != [] {
      var front, w := ws[..|ws| - 1], ws[|ws| - 1];
      IdsAreFind(front, cap);
      CopiesOnce(w.id, w.capabilities, cap);
      IdsAreFound(front, cap, w.id);
      FindInside(front, cap);
      assert w.id !in IdsFor(front, cap);
    }
  }

  lemma {:induction false} FindInside(ws: seq<Worker>, cap: string)
    ensures forall w :: w in Find(ws, cap) <==> w in ws && cap in w.capabilities
  {
    if ws != [] { FindInside(ws[..|ws| - 1], cap); }
  }

  /** `got` of `n` picks is a fair share among `k`. */
  predicate FairShare(got: nat, n: nat, k: nat) {
    k > 0 && n / k <= got <= n / k + if n % k == 0 then 0 else 1
  }

  /** At most one worker is found, or nobody lists the capability twice. */
  predicate ListedFairly(ws: seq<Worker>, cap: string) {
    |Find(ws, cap)| <= 1 || OnceEach(ws, cap)
  }

  /** Every window of picks of `cap`, from wherever the iterator stands, is fair to everyone found. */
  ghost predicate AlwaysFair(ws: seq<Worker>, cap: string) {
    forall at: nat, n: nat, i: nat :: at < |IdsFor(ws, cap)| && i < |Find(ws, cap)| ==>
      FairShare(Times(Turns(IdsFor(ws, cap), at, n), Find(ws, cap)[i].id), n, |Find(ws, cap)|)
  }

  lemma {:induction false} AloneGetsAll(ids: seq<string>, at: nat, n: nat, id: string)
    requires at < |ids| && forall x :: x in ids ==> x == id
    ensures Times(Turns(ids, at, n), id) == n
  {
    if n > 0 {
      AloneGetsAll(ids, at, n - 1, id);
      var x := ids[Place(at, n - 1, |ids|)];
      assert x in ids;
      TimesSnoc(Turns(ids, at, n - 1), x, id);
    }
  }

  lemma FairWindow(ws: seq<Worker>, cap: string, at: nat, n: nat, i: nat)
    requires DistinctIds(ws) && ListedFairly(ws, cap) && at < |IdsFor(ws, cap)| && i < |Find(ws, cap)|
    ensures FairShare(Times(Turns(IdsFor(ws, cap), at, n), Find(ws, cap)[i].id), n, |Find(ws, cap)|)
  {
    var ids, found := IdsFor(ws, cap), Find(ws, cap);
    if |found| == 1 {
      forall x | x in ids ensures x == found[0].id { IdsAreFound(ws, cap, x); }
      AloneGetsAll(ids, at, n, found[0].id);
    } else {
      IdsAreFind(ws, cap);
      TurnsShared(ids, at, n, i);
      RoundsDivide(n, |ids|);
    }
  }

  /** Someone who lists a capability twice has two neighbouring places in its iterator. */
  lemma {:induction false} TwinPlaces(ws: seq<Worker>, cap: string, w: Worker) returns (p: nat)
    requires w in ws && ListsTwice(w.capabilities, cap)
    ensures p + 1 < |IdsFor(ws, cap)| && IdsFor(ws, cap)[p] == w.id == IdsFor(ws, cap)[p + 1]
  {
    var front, last := ws[..|ws| - 1], ws[|ws| - 1];
    if w == last {
      var twins := Copies(w.id, w.capabilities, cap);
      CopiesLength(w.id, w.capabilities, cap);
      p := |IdsFor(front, cap)|;
      assert IdsFor(ws, cap)[p] == twins[0] && twins[0] in twins;
      assert IdsFor(ws, cap)[p + 1] == twins[1] && twins[1] in twins;
    } else {
      p := TwinPlaces(front, cap, w);
    }
  }

  lemma TwinPicks(ids: seq<string>, p: nat)
    requires p + 1 < |ids| && ids[p] == ids[p + 1]
    ensures Times(Turns(ids, p, 2), ids[p]) == 2
  {
    assert Turns(ids, p, 0) == [] && Turns(ids, p, 1) == [] + [ids[p]];
    TimesSnoc([], ids[p], ids[p]);
    TimesSnoc(Turns(ids, p, 1), ids[p + 1], ids[p]);
  }

  lemma TwoOfTwoUnfair(k: nat)
    requires k >= 2
    ensures !FairShare(2, 2, k)
  {
    if k > 2 { Quotient(2, 0, 2, k); }
  }

  lemma {:induction false} FoundWhere(ws: seq<Worker>, cap: string, w: Worker) returns (i: nat)
    requires w in ws && cap in w.capabilities
    ensures i < |Find(ws, cap)| && Find(ws, cap)[i] == w
  {
    FindInside(ws, cap);
    i :| i < |Find(ws, cap)| && Find(ws, cap)[i] == w;
  }

  /** For a set of workers, every window of picks of a capability from every place of its iterator is fair
      exactly when at most one worker is found for it or nobody lists it twice. */
  lemma AlwaysFairIff(ws: seq<Worker>, cap: string)
    requires DistinctIds(ws)
    ensures AlwaysFair(ws, cap) <==> ListedFairly(ws, cap)
  {
    if ListedFairly(ws, cap) {
      forall at: nat, n: nat, i: nat | at < |IdsFor(ws, cap)| && i < |Find(ws, cap)|
        ensures FairShare(Times(Turns(IdsFor(ws, cap), at, n), Find(ws, cap)[i].id), n, |Find(ws, cap)|)
      {
        FairWindow(ws, cap, at, n, i);
      }
    } else {
      var j :| 0 <= j < |ws| && ListsTwice(ws[j].capabilities, cap);
      var p := TwinPlaces(ws, cap, ws[j]);
      var i := FoundWhere(ws, cap, ws[j]);
      TwinPicks(IdsFor(ws, cap), p);
      TwoOfTwoUnfair(|Find(ws, cap)|);
      assert !FairShare(Times(Turns(IdsFor(ws, cap), p, 2), Find(ws, cap)[i].id), 2, |Find(ws, cap)|);
    }
  }

  const EMPTY := State([], map[])

  /** One entry for each worker, whatever registrations came in. */
  lemma {:induction false} RunDistinct(ops: seq<Op>)
    ensures DistinctIds(Run(EMPTY, ops).workers)
  {
    if ops != [] {
      var front, last := ops[..|ops| - 1], ops[|ops| - 1];
      RunDistinct(front);
      if last.Register? && last.reg.Some? { PutKeepsDistinct(Run(EMPTY, front).workers, last.reg.value); }
    }
  }

  /** No registration names `cap` twice. */
  predicate RegisterOnce(ops: seq<Op>, cap: string) {
    forall i :: 0 <= i < |ops| && ops[i].Register? && ops[i].reg.Some? ==>
        !ListsTwice(ops[i].reg.value.capabilities, cap)
  }

  lemma {:induction false} RunKeepsLists(ops: seq<Op>, cap: string)
    requires RegisterOnce(ops, cap)
    ensures OnceEach(Run(EMPTY, ops).workers, cap)
  {
    if ops != [] {
      var front, last := ops[..|ops| - 1], ops[|ops| - 1];
      RunKeepsLists(front, cap);
      if last.Register? && last.reg.Some? {
        RunDistinct(front);
        PutUpdates(Run(EMPTY, front).workers, last.reg.value);
      }
    }
  }

  /** After any run from the empty registry, of any `n` picks of a capability with no registration between
      them, whatever else is picked, each of the `k` workers found gets n / k rounded down or up, if at
      most one is found or nobody lists the capability twice. */
  lemma PicksAreFair(before: seq<Op>, ops: seq<Op>, cap: string, i: nat)
    requires OnlyPicks(ops) && i < |Find(Run(EMPTY, before).workers, cap)|
    requires ListedFairly(Run(EMPTY, before).workers, cap)
    ensures var s := Run(EMPTY, before); var got := Given(s, ops, cap);
            FairShare(Times(got, Find(s.workers, cap)[i].id), |got|, |Find(s.workers, cap)|)
  {
    var s := Run(EMPTY, before);
    RunCurrent(EMPTY, before);
    RunDistinct(before);
    IdsAreFound(s.workers, cap, "");
    assert Cycled(s.rr, cap) == IdsFor(s.workers, cap);
    GivenIsTurns(s, ops, cap);
    FairWindow(s.workers, cap, s.rr[cap].at, |Given(s, ops, cap)|, i);
  }

  /** In particular after registrations that name the capability at most once each. */
  lemma PicksAreFairIfListedOnce(before: seq<Op>, ops: seq<Op>, cap: string, i: nat)
    requires RegisterOnce(before, cap) && OnlyPicks(ops) && i < |Find(Run(EMPTY, before).workers, cap)|
    ensures var s := Run(EMPTY, before); var got := Given(s, ops, cap);
            FairShare(Times(got, Find(s.workers, cap)[i].id), |got|, |Find(s.workers, cap)|)
  {
    RunKeepsLists(before, cap);
    PicksAreFair(before, ops, cap, i);
  }

  function Picks(cap: string, n: nat): seq<Op> {
    seq(n, i => Pick(cap))
  }

  lemma {:induction false} GivenCount(s: State, cap: string, n: nat)
    requires cap in s.rr && s.rr[cap].at < |s.rr[cap].ids|
    ensures |Given(s, Picks(cap, n), cap)| == n
  {
    GivenIsTurns(s, Picks(cap, n), cap);
    if n > 0 {
      assert Picks(cap, n)[..n - 1] == Picks(cap, n - 1);
      GivenCount(s, cap, n - 1);
      GivenIsTurns(s, Picks(cap, n - 1), cap);
    }
  }

  /** Just after a registration that leaves more than one worker for a capability and one who lists it
      twice, some picks later the next two picks both go to that one. */
  lemma UnfairPicks(before: seq<Op>, reg: Worker, cap: string, w: Worker) returns (p: nat)
    requires var s := Run(EMPTY, before + [Register(Some(reg))]);
             w in s.workers && ListsTwice(w.capabilities, cap) && |Find(s.workers, cap)| >= 2
    ensures var s := Run(EMPTY, before + [Register(Some(reg))]);
            var got := Given(Run(s, Picks(cap, p)), Picks(cap, 2), cap);
            && got == [w.id, w.id] && !FairShare(Times(got, w.id), |got|, |Find(s.workers, cap)|)
  {
    var ops := before + [Register(Some(reg))];
    var s := Run(EMPTY, ops);
    assert ops[..|before|] == before;
    assert s.rr == Rebuilt(s.workers);
    p := TwinPlaces(s.workers, cap, w);
    ListedIff(s.workers, cap);
    var ids := IdsFor(s.workers, cap);
    assert s.rr[cap] == Cycle(ids, 0);
    GivenIsTurns(s, Picks(cap, p), cap);
    GivenCount(s, cap, p);
    FirstRound(ids, p);
    var t := Run(s, Picks(cap, p));
    GivenIsTurns(t, Picks(cap, 2), cap);
    GivenCount(t, cap, 2);
    TwinPicks(ids, p);
    assert Turns(ids, p, 1) == [] + [ids[p]] && Turns(ids, p, 2) == [ids[p]] + [ids[p + 1]];
    TwoOfTwoUnfair(|Find(s.workers, cap)|);
  }

  lemma {:induction false} FirstRound(ids: seq<string>, n: nat)
    requires ids != [] && n <= |ids|
    ensures Place(0, n, |ids|) == if n < |ids| then n else 0
    ensures Turns(ids, 0, n) == ids[..n]
  {
    if n > 0 { FirstRound(ids, n - 1); }
  }
}
