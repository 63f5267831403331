/** The webhook route and its dispatcher: request coroutines and fire tasks interleaved at every await. */
module Webhook {
  import opened Prelude

  const MAX_BODY_BYTES: nat := 64 * 1024

  datatype Trigger = Trigger(id: string, cooldown: Option<int>, token: string)

  datatype Suppression = Suppression(count: nat, firstAt: int, lastAt: int)

  /** The dispatcher's mutable maps. */
  datatype Disp = Disp(lastFired: map<string, int>, suppressed: map<string, Suppression>)

  datatype Request = Request(triggerId: string, size: nat, bearer: Option<string>)

  /** What the route decides once the body has arrived. */
  datatype Verdict = TooLarge | NotWired | Unknown | Unauthorized | Suppress | Admit

  function InCooldown(d: Disp, t: Trigger, now: int): bool {
    t.cooldown.Some? && t.id in d.lastFired && now - d.lastFired[t.id] < t.cooldown.value
  }

  function Decide(registry: map<string, Trigger>, wired: bool, d: Disp, r: Request, now: int): Verdict {
    if r.size > MAX_BODY_BYTES then TooLarge
    else if !wired then NotWired
    else if r.triggerId !in registry then Unknown
    else if r.bearer != Some(registry[r.triggerId].token) then Unauthorized
    else if InCooldown(d, registry[r.triggerId], now) then Suppress
    else Admit
  }

  /** Coalesce one more suppressed request. */
  function Suppressed(d: Disp, id: string, now: int): Disp {
    d.(suppressed := d.suppressed[id :=
      if id in d.suppressed
      then d.suppressed[id].(count := d.suppressed[id].count + 1, lastAt := now)
      else Suppression(1, now, now)])
  }

  function Popped(d: Disp, id: string): Disp {
    d.(suppressed := d.suppressed - {id})
  }

  function Marked(d: Disp, id: string, now: int): Disp {
    d.(lastFired := d.lastFired[id := now])
  }

  /** Triggers are filed under their own id, and a configured cooldown is at least one second. */
  predicate WellKeyed(registry: map<string, Trigger>) {
    forall id :: id in registry ==>
      registry[id].id == id && (registry[id].cooldown.Some? ==> registry[id].cooldown.value >= 1)
  }

  // ---------------------------------------------------------------- the code, one method per stretch between awaits

  class WebhookDispatcher {
    const registry: map<string, Trigger>
    var lastFired: map<string, int>
    var suppressed: map<string, Suppression>

    constructor (registry: map<string, Trigger>)
      ensures this.registry == registry && View() == Disp(map[], map[])
    {
      this.registry := registry;
      lastFired := map[];
      suppressed := map[];
    }

    function View(): Disp
      reads this
    {
      Disp(lastFired, suppressed)
    }

    function IsInCooldown(t: Trigger, now: int): bool
      reads this
      ensures IsInCooldown(t, now) == InCooldown(View(), t, now)
    {
      if t.cooldown.None? then false
      else if t.id !in lastFired then false
      else now - lastFired[t.id] < t.cooldown.value
    }

    method RecordSuppression(id: string, now: int)
      modifies this
      ensures View() == Suppressed(old(View()), id, now)
    {
      if id !in suppressed {
        suppressed := suppressed[id := Suppression(1, now, now)];
        return;
      }
      var existing := suppressed[id];
      suppressed := suppressed[id := Suppression(existing.count + 1, existing.firstAt, now)];
    }

    /** The route from the end of the body read to its next await. The clock is read once for the
        cooldown check and again, possibly later, for the suppression. */
    method ReceiveBody(r: Request, now: int, later: int) returns (v: Verdict)
      requires WellKeyed(registry)
      modifies this
      ensures v == Decide(registry, true, old(View()), r, now)
      ensures View() == if v.Suppress? then Suppressed(old(View()), r.triggerId, later) else old(View())
    {
      if r.size > MAX_BODY_BYTES { return TooLarge; }
      if r.triggerId !in registry { return Unknown; }
      var t := registry[r.triggerId];
      if r.bearer.None? || r.bearer.value != t.token { return Unauthorized; }
      if IsInCooldown(t, now) {
        RecordSuppression(r.triggerId, later);
        return Suppress;
      }
      return Admit;
    }

    method PopSuppression(id: string) returns (s: Option<Suppression>)
      modifies this
      ensures s == if id in old(suppressed) then Some(old(suppressed)[id]) else None
      ensures View() == Popped(old(View()), id)
    {
      s := if id in suppressed then Some(suppressed[id]) else None;
      suppressed := suppressed - {id};
    }

    /** A fire task from its first step to its first await: with nothing to flush it marks at once. */
    method BeginFire(id: string, now: int) returns (s: Option<Suppression>)
      modifies this
      ensures s == if id in old(suppressed) then Some(old(suppressed)[id]) else None
      ensures View() == if s.Some? then Popped(old(View()), id) else Marked(Popped(old(View()), id), id, now)
    {
      s := PopSuppression(id);
      if s.None? { lastFired := lastFired[id := now]; }
    }

    /** A fire task after its suppression row has been written. */
    method AfterFlush(id: string, now: int)
      modifies this
      ensures View() == Marked(old(View()), id, now)
    {
      lastFired := lastFired[id := now];
    }
  }

  // ---------------------------------------------------------------- the interleaved machine

  datatype Post =
    | Waiting(req: Request)
    | Refusing(req: Request, status: int)
    | Admitted(req: Request)
    | Answered(req: Request, status: int)
    | Crashed(req: Request)

  datatype Task =
    | Spawned(id: string)
    | Flushing(id: string, held: Suppression)
    | Running(id: string)
    | Ended(id: string)

  datatype Stop =
    | NotStopping
    | Stopping(todo: seq<string>)
    | StopFlushing(id: string, held: Suppression, todo: seq<string>)
    | Joining(tasks: nat)
    | Stopped
    | StopCrashed

  datatype Row = ReceivedRow(id: string) | RefusedRow(id: string) | SuppressedRow(id: string, s: Suppression)

  datatype Fire = Fire(id: string, at: int)

  datatype Config = Config(registry: map<string, Trigger>, wired: bool)

  /** `lost` collects counts popped from the dispatcher whose audit write then failed. */
  datatype State = State(d: Disp, posts: seq<Post>, tasks: seq<Task>, stop: Stop, rows: seq<Row>,
                         lost: seq<Row>, fires: seq<Fire>, clock: int)

  datatype Step =
    | Arrive(req: Request)
    | Tick(t: int)
    | Body(i: nat, later: int)
    | Recorded(i: nat, ok: bool)
    | Begin(j: nat)
    | Flushed(j: nat, ok: bool)
    | Finish(j: nat)
    | StopBegin(order: seq<string>)
    | StopNext
    | StopFlushed(ok: bool)
    | StopJoined

  predicate Enabled(s: State, e: Step) {
    match e
    case Arrive(_) => true
    case Tick(_) => true
    case Body(i, _) => i < |s.posts| && s.posts[i].Waiting?
    case Recorded(i, _) => i < |s.posts| && (s.posts[i].Refusing? || s.posts[i].Admitted?)
    case Begin(j) => j < |s.tasks| && s.tasks[j].Spawned?
    case Flushed(j, _) => j < |s.tasks| && s.tasks[j].Flushing?
    case Finish(j) => j < |s.tasks| && s.tasks[j].Running?
    case StopBegin(order) =>
      s.stop.NotStopping? && Distinct(order) && (set id | id in order) == s.d.suppressed.Keys
    case StopNext => s.stop.Stopping?
    case StopFlushed(_) => s.stop.StopFlushing?
    case StopJoined =>
      s.stop.Joining? && s.stop.tasks <= |s.tasks| && forall j :: 0 <= j < s.stop.tasks ==> s.tasks[j].Ended?
  }

  function AfterBody(s: State, i: nat, later: int, c: Config): State
    requires Enabled(s, Body(i, later))
  {
    var r := s.posts[i].req;
    match Decide(c.registry, c.wired, s.d, r, s.clock)
    case TooLarge => s.(posts := s.posts[i := Answered(r, 413)], clock := later)
    case NotWired => s.(posts := s.posts[i := Answered(r, 404)], clock := later)
    case Unknown => s.(posts := s.posts[i := Refusing(r, 404)], clock := later)
    case Unauthorized => s.(posts := s.posts[i := Refusing(r, 401)], clock := later)
    case Suppress =>
      s.(posts := s.posts[i := Answered(r, 429)], d := Suppressed(s.d, r.triggerId, later), clock := later)
    case Admit => s.(posts := s.posts[i := Admitted(r)], clock := later)
  }

  function AfterRecorded(s: State, i: nat, ok: bool): State
    requires Enabled(s, Recorded(i, ok))
  {
    var r := s.posts[i].req;
    if !ok then s.(posts := s.posts[i := Crashed(r)])
    else if s.posts[i].Refusing? then
      s.(posts := s.posts[i := Answered(r, s.posts[i].status)], rows := s.rows + [RefusedRow(r.triggerId)])
    else
      s.(posts := s.posts[i := Answered(r, 202)], rows := s.rows + [ReceivedRow(r.triggerId)],
         tasks := s.tasks + [Spawned(r.triggerId)])
  }

  function Mark(s: State, j: nat): State
    requires j < |s.tasks|
  {
    var id := s.tasks[j].id;
    s.(d := Marked(s.d, id, s.clock), tasks := s.tasks[j := Running(id)], fires := s.fires + [Fire(id, s.clock)])
  }

  function AfterBegin(s: State, j: nat): State
    requires Enabled(s, Begin(j))
  {
    var id := s.tasks[j].id;
    if id in s.d.suppressed
    then s.(d := Popped(s.d, id), tasks := s.tasks[j := Flushing(id, s.d.suppressed[id])])
    else Mark(s, j)
  }

  function AfterFlushed(s: State, j: nat, ok: bool): State
    requires Enabled(s, Flushed(j, ok))
  {
    var id, held := s.tasks[j].id, s.tasks[j].held;
    if ok then Mark(s.(rows := s.rows + [SuppressedRow(id, held)]), j)
    else s.(tasks := s.tasks[j := Ended(id)], lost := s.lost + [SuppressedRow(id, held)])
  }

  function AfterStopNext(s: State): State
    requires Enabled(s, StopNext)
  {
    var todo := s.stop.todo;
    if todo == [] then s.(stop := Joining(|s.tasks|))
    else if todo[0] in s.d.suppressed
    then s.(d := Popped(s.d, todo[0]), stop := StopFlushing(todo[0], s.d.suppressed[todo[0]], todo[1..]))
    else s.(stop := Stopping(todo[1..]))
  }

  function AfterStopFlushed(s: State, ok: bool): State
    requires Enabled(s, StopFlushed(ok))
  {
    var row := SuppressedRow(s.stop.id, s.stop.held);
    if ok then s.(stop := Stopping(s.stop.todo), rows := s.rows + [row])
    else s.(stop := StopCrashed, lost := s.lost + [row])
  }

  function Do(s: State, e: Step, c: Config): State
    requires Enabled(s, e)
  {
    match e
    case Arrive(r) => s.(posts := s.posts + [Waiting(r)])
    case Tick(t) => s.(clock := t)
    case Body(i, later) => AfterBody(s, i, later, c)
    case Recorded(i, ok) => AfterRecorded(s, i, ok)
    case Begin(j) => AfterBegin(s, j)
    case Flushed(j, ok) => AfterFlushed(s, j, ok)
    case Finish(j) => s.(tasks := s.tasks[j := Ended(s.tasks[j].id)])
    case StopBegin(order) => s.(stop := Stopping(order))
    case StopNext => AfterStopNext(s)
    case StopFlushed(ok) => AfterStopFlushed(s, ok)
    case StopJoined => s.(stop := Stopped)
  }

  function Init(clock: int): State {
    State(Disp(map[], map[]), [], [], NotStopping, [], [], [], clock)
  }

  ghost predicate Run(ss: seq<State>, es: seq<Step>, c: Config) {
    |ss| == |es| + 1 && forall i :: 0 <= i < |es| ==> Enabled(ss[i], es[i]) && ss[i + 1] == Do(ss[i], es[i], c)
  }

  // ---------------------------------------------------------------- what becomes of a request

  /** Authenticated, within the size limit, and for an armed trigger. */
  predicate Accepted(r: Request, c: Config) {
    r.size <= MAX_BODY_BYTES && c.wired && r.triggerId in c.registry
    && r.bearer == Some(c.registry[r.triggerId].token)
  }

  predicate Routed(p: Post, c: Config) {
    var r := p.req;
    match p
    case Waiting(_) => true
    case Refusing(_, st) =>
      && r.size <= MAX_BODY_BYTES && c.wired && !Accepted(r, c)
      && st == if r.triggerId in c.registry then 401 else 404
    case Admitted(_) => Accepted(r, c)
    case Answered(_, st) =>
      && (st in {202, 429} <==> Accepted(r, c))
      && (st == 413 <==> r.size > MAX_BODY_BYTES)
      && (st == 401 <==> r.size <= MAX_BODY_BYTES && c.wired && r.triggerId in c.registry && !Accepted(r, c))
      && st in {202, 401, 404, 413, 429}
    case Crashed(_) => r.size <= MAX_BODY_BYTES
  }

  /** A request to an armed trigger ends as a spawned fire or a counted suppression, and no other
      request does, unless its own audit write fails. */
  lemma {:induction false} EveryPostRouted(ss: seq<State>, es: seq<Step>, c: Config, n: nat, i: nat)
    requires Run(ss, es, c) && ss[0] == Init(ss[0].clock) && n <= |es| && i < |ss[n].posts|
    ensures Routed(ss[n].posts[i], c)
  {
    var s, e := ss[n - 1], es[n - 1];
    assert Enabled(s, e) && ss[n] == Do(s, e, c);
    if i < |s.posts| {
      EveryPostRouted(ss, es, c, n - 1, i);
      if ss[n].posts[i] != s.posts[i] { RoutedMove(s, e, c, i); }
    }
  }

  lemma RoutedMove(s: State, e: Step, c: Config, i: nat)
    requires Enabled(s, e) && i < |s.posts| && Routed(s.posts[i], c) && Do(s, e, c).posts[i] != s.posts[i]
    ensures Routed(Do(s, e, c).posts[i], c)
  {
    assert (e.Body? || e.Recorded?) && e.i == i;
  }

  // ---------------------------------------------------------------- conservation

  datatype PostKind = Is429 | Is202 | IsAdmitted | IsRefused

  function PostWeight(k: PostKind, id: string, p: Post): nat {
    if p.req.triggerId != id then 0
    else
      match k
      case Is429 => if p.Answered? && p.status == 429 then 1 else 0
      case Is202 => if p.Answered? && p.status == 202 then 1 else 0
      case IsAdmitted => if p.Admitted? then 1 else 0
      case IsRefused => if p.Answered? && p.status in {401, 404} then 1 else 0
  }

  /** How many requests for `id` are of kind `k`. */
  function Posts(k: PostKind, id: string, ps: seq<Post>): nat {
    if ps == [] then 0 else Posts(k, id, ps[..|ps| - 1]) + PostWeight(k, id, ps[|ps| - 1])
  }

  datatype TaskKind = IsTask | IsUnmarked | HeldCount

  function TaskWeight(k: TaskKind, id: string, t: Task): nat {
    if t.id != id then 0
    else
      match k
      case IsTask => 1
      case IsUnmarked => if t.Spawned? || t.Flushing? then 1 else 0
      case HeldCount => if t.Flushing? then t.held.count else 0
  }

  /** How many tasks of `id` are of kind `k`, or how much suppression they hold. */
  function Tasks(k: TaskKind, id: string, ts: seq<Task>): nat {
    if ts == [] then 0 else Tasks(k, id, ts[..|ts| - 1]) + TaskWeight(k, id, ts[|ts| - 1])
  }

  datatype RowKind = Carried | ReceivedOnes | RefusedOnes

  function RowWeight(k: RowKind, id: string, r: Row): nat {
    match k
    case Carried => if r.SuppressedRow? && r.id == id then r.s.count else 0
    case ReceivedOnes => if r == ReceivedRow(id) then 1 else 0
    case RefusedOnes => if r == RefusedRow(id) then 1 else 0
  }

  /** The suppression counts that rows carry for `id`, or the number of its received or refused rows. */
  function Rows(k: RowKind, id: string, rs: seq<Row>): nat {
    if rs == [] then 0 else Rows(k, id, rs[..|rs| - 1]) + RowWeight(k, id, rs[|rs| - 1])
  }

  lemma PostsSnoc(k: PostKind, id: string, ps: seq<Post>, p: Post)
    ensures Posts(k, id, ps + [p]) == Posts(k, id, ps) + PostWeight(k, id, p)
  {
    assert (ps + [p])[..|ps|] == ps;
  }

  lemma {:induction false} PostsUpdate(k: PostKind, id: string, ps: seq<Post>, i: nat, p: Post)
    requires i < |ps|
    ensures Posts(k, id, ps[i := p]) == Posts(k, id, ps) - PostWeight(k, id, ps[i]) + PostWeight(k, id, p)
  {
    var n := |ps| - 1;
    if i == n { assert ps[i := p][..n] == ps[..n]; }
    else {
      assert ps[i := p][..n] == ps[..n][i := p];
      PostsUpdate(k, id, ps[..n], i, p);
    }
  }

  lemma TasksSnoc(k: TaskKind, id: string, ts: seq<Task>, t: Task)
    ensures Tasks(k, id, ts + [t]) == Tasks(k, id, ts) + TaskWeight(k, id, t)
  {
    assert (ts + [t])[..|ts|] == ts;
  }

  lemma {:induction false} TasksUpdate(k: TaskKind, id: string, ts: seq<Task>, j: nat, t: Task)
    requires j < |ts|
    ensures Tasks(k, id, ts[j := t]) == Tasks(k, id, ts) - TaskWeight(k, id, ts[j]) + TaskWeight(k, id, t)
  {
    var n := |ts| - 1;
    if j == n { assert ts[j := t][..n] == ts[..n]; }
    else {
      assert ts[j := t][..n] == ts[..n][j := t];
      TasksUpdate(k, id, ts[..n], j, t);
    }
  }

  lemma RowsSnoc(k: RowKind, id: string, rs: seq<Row>, r: Row)
    ensures Rows(k, id, rs + [r]) == Rows(k, id, rs) + RowWeight(k, id, r)
  {
    assert (rs + [r])[..|rs|] == rs;
  }

  lemma {:induction false} APost(k: PostKind, id: string, ps: seq<Post>) returns (i: nat)
    requires Posts(k, id, ps) > 0
    ensures i < |ps| && PostWeight(k, id, ps[i]) > 0
  {
    var n := |ps| - 1;
    if PostWeight(k, id, ps[n]) > 0 { i := n; } else { i := APost(k, id, ps[..n]); }
  }

  lemma {:induction false} ATask(k: TaskKind, id: string, ts: seq<Task>) returns (j: nat)
    requires Tasks(k, id, ts) > 0
    ensures j < |ts| && TaskWeight(k, id, ts[j]) > 0
  {
    var n := |ts| - 1;
    if TaskWeight(k, id, ts[n]) > 0 { j := n; } else { j := ATask(k, id, ts[..n]); }
  }

  lemma {:induction false} TaskCounted(k: TaskKind, id: string, ts: seq<Task>, j: nat)
    requires j < |ts|
    ensures TaskWeight(k, id, ts[j]) <= Tasks(k, id, ts)
  {
    if j < |ts| - 1 { TaskCounted(k, id, ts[..|ts| - 1], j); }
  }

  function StopHolds(p: Stop, id: string): nat {
    if p.StopFlushing? && p.id == id then p.held.count else 0
  }

  function Pending(d: Disp, id: string): nat {
    if id in d.suppressed then d.suppressed[id].count else 0
  }

  /** Every 429 answered for `id` is flushed, popped but not yet written, lost with a failed write, or pending. */
  ghost predicate Conserved(s: State, id: string) {
    Posts(Is429, id, s.posts)
    == Rows(Carried, id, s.rows) + Tasks(HeldCount, id, s.tasks) + StopHolds(s.stop, id)
       + Rows(Carried, id, s.lost) + Pending(s.d, id)
  }

  /** Every 202 answered for `id` has exactly one received row and one spawned task. */
  ghost predicate Spawns(s: State, id: string) {
    && Posts(Is202, id, s.posts) == Tasks(IsTask, id, s.tasks)
    && Posts(Is202, id, s.posts) == Rows(ReceivedOnes, id, s.rows)
  }

  lemma PendingMoves(d: Disp, id: string, other: string, now: int)
    ensures Pending(Suppressed(d, other, now), id) == Pending(d, id) + if id == other then 1 else 0
    ensures Pending(Popped(d, other), id) == if id == other then 0 else Pending(d, id)
    ensures Pending(Marked(d, other, now), id) == Pending(d, id)
  {
  }

  lemma BodyConserves(s: State, i: nat, later: int, c: Config, id: string)
    requires Enabled(s, Body(i, later)) && Conserved(s, id) && Spawns(s, id)
    ensures Conserved(AfterBody(s, i, later, c), id) && Spawns(AfterBody(s, i, later, c), id)
  {
    var s' := AfterBody(s, i, later, c);
    PendingMoves(s.d, id, s.posts[i].req.triggerId, later);
    PostReplaced(s, s', i, s'.posts[i], id);
  }

  /** One request answered without a spawn: its 429, if it is one, is the one pending count added. */
  lemma PostReplaced(s: State, s': State, i: nat, p: Post, id: string)
    requires i < |s.posts| && s'.posts == s.posts[i := p] && s.posts[i].Waiting? && PostWeight(Is202, id, p) == 0
    requires s'.tasks == s.tasks && s'.rows == s.rows && s'.lost == s.lost && s'.stop == s.stop
    requires Pending(s'.d, id) == Pending(s.d, id) + PostWeight(Is429, id, p)
    requires Conserved(s, id) && Spawns(s, id)
    ensures Conserved(s', id) && Spawns(s', id)
  {
    PostsUpdate(Is429, id, s.posts, i, p);
    PostsUpdate(Is202, id, s.posts, i, p);
  }

  lemma CrashConserves(s: State, i: nat, id: string)
    requires Enabled(s, Recorded(i, false)) && Conserved(s, id) && Spawns(s, id)
    ensures Conserved(AfterRecorded(s, i, false), id) && Spawns(AfterRecorded(s, i, false), id)
  {
    PostsUpdate(Is429, id, s.posts, i, Crashed(s.posts[i].req));
    PostsUpdate(Is202, id, s.posts, i, Crashed(s.posts[i].req));
  }

  lemma RefusedConserves(s: State, i: nat, id: string)
    requires Enabled(s, Recorded(i, true)) && s.posts[i].Refusing? && s.posts[i].status in {401, 404}
    requires Conserved(s, id) && Spawns(s, id)
    ensures Conserved(AfterRecorded(s, i, true), id) && Spawns(AfterRecorded(s, i, true), id)
  {
    var r := s.posts[i].req;
    PostsUpdate(Is429, id, s.posts, i, Answered(r, s.posts[i].status));
    PostsUpdate(Is202, id, s.posts, i, Answered(r, s.posts[i].status));
    RowsSnoc(Carried, id, s.rows, RefusedRow(r.triggerId));
    RowsSnoc(ReceivedOnes, id, s.rows, RefusedRow(r.triggerId));
  }

  /** `s'` is `s` after request `i` was accepted: its answer, its row, its task. */
  predicate Admits(s: State, s': State, i: nat) {
    && i < |s.posts| && s.posts[i].Admitted?
    && s'.posts == s.posts[i := Answered(s.posts[i].req, 202)]
    && s'.rows == s.rows + [ReceivedRow(s.posts[i].req.triggerId)]
    && s'.tasks == s.tasks + [Spawned(s.posts[i].req.triggerId)]
    && s'.d == s.d && s'.lost == s.lost && s'.stop == s.stop
  }

  lemma AdmittedCounts(s: State, s': State, i: nat, id: string)
    requires Admits(s, s', i) && Conserved(s, id)
    ensures Conserved(s', id)
  {
    var r := s.posts[i].req;
    PostsUpdate(Is429, id, s.posts, i, Answered(r, 202));
    RowsSnoc(Carried, id, s.rows, ReceivedRow(r.triggerId));
    TasksSnoc(HeldCount, id, s.tasks, Spawned(r.triggerId));
  }

  lemma AdmittedSpawns(s: State, s': State, i: nat, id: string)
    requires Admits(s, s', i) && Spawns(s, id)
    ensures Spawns(s', id)
  {
    var r := s.posts[i].req;
    PostsUpdate(Is202, id, s.posts, i, Answered(r, 202));
    RowsSnoc(ReceivedOnes, id, s.rows, ReceivedRow(r.triggerId));
    TasksSnoc(IsTask, id, s.tasks, Spawned(r.triggerId));
  }

  lemma AdmittedConserves(s: State, i: nat, id: string)
    requires Enabled(s, Recorded(i, true)) && s.posts[i].Admitted? && Conserved(s, id) && Spawns(s, id)
    ensures Conserved(AfterRecorded(s, i, true), id) && Spawns(AfterRecorded(s, i, true), id)
  {
    AdmittedCounts(s, AfterRecorded(s, i, true), i, id);
    AdmittedSpawns(s, AfterRecorded(s, i, true), i, id);
  }

  lemma BeginConserves(s: State, j: nat, id: string)
    requires Enabled(s, Begin(j)) && Conserved(s, id) && Spawns(s, id)
    ensures Conserved(AfterBegin(s, j), id) && Spawns(AfterBegin(s, j), id)
  {
    var s' := AfterBegin(s, j);
    TasksUpdate(HeldCount, id, s.tasks, j, s'.tasks[j]);
    TasksUpdate(IsTask, id, s.tasks, j, s'.tasks[j]);
    PendingMoves(s.d, id, s.tasks[j].id, s.clock);
  }

  /** A held count turns into a row, or is lost with the failed write. */
  lemma FlushedCounts(s: State, j: nat, ok: bool, id: string)
    requires Enabled(s, Flushed(j, ok)) && Conserved(s, id)
    ensures Conserved(AfterFlushed(s, j, ok), id)
  {
    var s', row := AfterFlushed(s, j, ok), SuppressedRow(s.tasks[j].id, s.tasks[j].held);
    TasksUpdate(HeldCount, id, s.tasks, j, s'.tasks[j]);
    PendingMoves(s.d, id, s.tasks[j].id, s.clock);
    if ok { RowsSnoc(Carried, id, s.rows, row); } else { RowsSnoc(Carried, id, s.lost, row); }
  }

  lemma FlushedConserves(s: State, j: nat, ok: bool, id: string)
    requires Enabled(s, Flushed(j, ok)) && Conserved(s, id) && Spawns(s, id)
    ensures Conserved(AfterFlushed(s, j, ok), id) && Spawns(AfterFlushed(s, j, ok), id)
  {
    FlushedCounts(s, j, ok, id);
    TasksUpdate(IsTask, id, s.tasks, j, AfterFlushed(s, j, ok).tasks[j]);
    RowsSnoc(ReceivedOnes, id, s.rows, SuppressedRow(s.tasks[j].id, s.tasks[j].held));
  }

  lemma StopNextConserves(s: State, id: string)
    requires Enabled(s, StopNext) && Conserved(s, id) && Spawns(s, id)
    ensures Conserved(AfterStopNext(s), id) && Spawns(AfterStopNext(s), id)
  {
    if s.stop.todo != [] { PendingMoves(s.d, id, s.stop.todo[0], s.clock); }
  }

  lemma StopFlushedConserves(s: State, ok: bool, id: string)
    requires Enabled(s, StopFlushed(ok)) && Conserved(s, id) && Spawns(s, id)
    ensures Conserved(AfterStopFlushed(s, ok), id) && Spawns(AfterStopFlushed(s, ok), id)
  {
    var s', row := AfterStopFlushed(s, ok), SuppressedRow(s.stop.id, s.stop.held);
    assert s'.posts == s.posts && s'.tasks == s.tasks && s'.d == s.d && StopHolds(s'.stop, id) == 0;
    if ok {
      RowsSnoc(Carried, id, s.rows, row);
      RowsSnoc(ReceivedOnes, id, s.rows, row);
    } else {
      RowsSnoc(Carried, id, s.lost, row);
    }
  }

  lemma StepConserves(s: State, e: Step, c: Config, id: string)
    requires Enabled(s, e) && Conserved(s, id) && Spawns(s, id)
    requires forall i :: 0 <= i < |s.posts| ==> Routed(s.posts[i], c)
    ensures Conserved(Do(s, e, c), id) && Spawns(Do(s, e, c), id)
  {
    match e
    case Arrive(r) =>
      PostsSnoc(Is429, id, s.posts, Waiting(r));
      PostsSnoc(Is202, id, s.posts, Waiting(r));
    case Tick(_) =>
    case Body(i, later) => BodyConserves(s, i, later, c, id);
    case Recorded(i, ok) =>
      if !ok { CrashConserves(s, i, id); }
      else if s.posts[i].Admitted? { AdmittedConserves(s, i, id); }
      else { RefusedConserves(s, i, id); }
    case Begin(j) => BeginConserves(s, j, id);
    case Flushed(j, ok) => FlushedConserves(s, j, ok, id);
    case Finish(j) =>
      TasksUpdate(HeldCount, id, s.tasks, j, Ended(s.tasks[j].id));
      TasksUpdate(IsTask, id, s.tasks, j, Ended(s.tasks[j].id));
    case StopBegin(_) =>
    case StopNext => StopNextConserves(s, id);
    case StopFlushed(ok) => StopFlushedConserves(s, ok, id);
    case StopJoined =>
  }

  /** Conservation holds in every state of every interleaving. */
  lemma {:induction false} RunConserves(ss: seq<State>, es: seq<Step>, c: Config, n: nat, id: string)
    requires Run(ss, es, c) && ss[0] == Init(ss[0].clock) && n <= |es|
    ensures Conserved(ss[n], id) && Spawns(ss[n], id)
  {
    if n > 0 {
      RunConserves(ss, es, c, n - 1, id);
      var s := ss[n - 1];
      forall i | 0 <= i < |s.posts| ensures Routed(s.posts[i], c) { EveryPostRouted(ss, es, c, n - 1, i); }
      StepConserves(s, es[n - 1], c, id);
    }
  }

  /** Every 401 and 404 answered for `id` has its row. */
  ghost predicate Noted(s: State, id: string) {
    Posts(IsRefused, id, s.posts) == Rows(RefusedOnes, id, s.rows)
  }

  lemma RecordNotes(s: State, i: nat, ok: bool, id: string)
    requires Enabled(s, Recorded(i, ok)) && Noted(s, id) && (s.posts[i].Refusing? ==> s.posts[i].status in {401, 404})
    ensures Noted(AfterRecorded(s, i, ok), id)
  {
    var s', r := AfterRecorded(s, i, ok), s.posts[i].req;
    PostsUpdate(IsRefused, id, s.posts, i, s'.posts[i]);
    if s.posts[i].Refusing? { RowsSnoc(RefusedOnes, id, s.rows, RefusedRow(r.triggerId)); }
    else { RowsSnoc(RefusedOnes, id, s.rows, ReceivedRow(r.triggerId)); }
  }

  lemma BodyNotes(s: State, i: nat, later: int, c: Config, id: string)
    requires Enabled(s, Body(i, later)) && c.wired && Noted(s, id)
    ensures Noted(AfterBody(s, i, later, c), id)
  {
    PostsUpdate(IsRefused, id, s.posts, i, AfterBody(s, i, later, c).posts[i]);
  }

  lemma RowNotes(s: State, s': State, row: Row, id: string)
    requires Noted(s, id) && row.SuppressedRow? && s'.posts == s.posts && s'.rows in {s.rows, s.rows + [row]}
    ensures Noted(s', id)
  {
    RowsSnoc(RefusedOnes, id, s.rows, row);
  }

  lemma StepRecords(s: State, e: Step, c: Config, id: string)
    requires Enabled(s, e) && c.wired && Noted(s, id)
    requires forall i :: 0 <= i < |s.posts| ==> Routed(s.posts[i], c)
    ensures Noted(Do(s, e, c), id)
  {
    match e
    case Arrive(r) => PostsSnoc(IsRefused, id, s.posts, Waiting(r));
    case Body(i, later) => BodyNotes(s, i, later, c, id);
    case Recorded(i, ok) =>
      assert Routed(s.posts[i], c);
      RecordNotes(s, i, ok, id);
    case Flushed(j, _) => RowNotes(s, Do(s, e, c), SuppressedRow(s.tasks[j].id, s.tasks[j].held), id);
    case StopFlushed(_) => RowNotes(s, Do(s, e, c), SuppressedRow(s.stop.id, s.stop.held), id);
    case _ =>
  }

  /** In every interleaving each refusal (once the route has its dispatcher) leaves exactly one row. */
  lemma {:induction false} RefusalsRecorded(ss: seq<State>, es: seq<Step>, c: Config, n: nat, id: string)
    requires Run(ss, es, c) && ss[0] == Init(ss[0].clock) && n <= |es| && c.wired
    ensures Noted(ss[n], id)
  {
    if n > 0 {
      RefusalsRecorded(ss, es, c, n - 1, id);
      var s := ss[n - 1];
      forall i | 0 <= i < |s.posts| ensures Routed(s.posts[i], c) { EveryPostRouted(ss, es, c, n - 1, i); }
      StepRecords(s, es[n - 1], c, id);
    }
  }

  // ---------------------------------------------------------------- stopping

  predicate Covers(s: State, todo: seq<string>) {
    forall id :: id in s.d.suppressed ==> id in todo
  }

  /** Whatever is still pending is on the stopping coroutine's list. */
  predicate Draining(s: State) {
    match s.stop
    case Stopping(todo) => Covers(s, todo)
    case StopFlushing(_, _, todo) => Covers(s, todo)
    case Joining(_) => s.d.suppressed == map[]
    case Stopped => s.d.suppressed == map[]
    case _ => false
  }

  lemma StepDrains(s: State, e: Step, c: Config)
    requires Enabled(s, e) && Draining(s) && !e.Body?
    requires Do(s, e, c).stop != StopCrashed
    ensures Draining(Do(s, e, c))
  {
    match e
    case Begin(j) =>
    case Flushed(j, _) =>
    case StopNext =>
      if s.stop.todo != [] {
        assert s.stop.todo == [s.stop.todo[0]] + s.stop.todo[1..];
        forall id | id in Do(s, e, c).d.suppressed ensures id in s.stop.todo[1..] {
          assert id in s.stop.todo && id != s.stop.todo[0];
        }
      }
    case _ =>
  }

  /** Once `stop` has begun and no further request body is decided, nothing is pending when its
      flush loop is over; when it has also joined the tasks and no new one was spawned, every 429
      ever answered is in a recorded row or was lost to a failed write. */
  lemma {:induction false} StopDrains(ss: seq<State>, es: seq<Step>, c: Config, b: nat, n: nat)
    requires Run(ss, es, c) && b < n <= |es| && es[b].StopBegin?
    requires forall i :: b < i < n ==> !es[i].Body?
    requires forall i :: b < i <= n ==> ss[i].stop != StopCrashed
    ensures Draining(ss[n])
    ensures ss[n].stop.Joining? || ss[n].stop.Stopped? ==> forall id :: Pending(ss[n].d, id) == 0
  {
    if n == b + 1 {
      assert Enabled(ss[b], es[b]);
    } else {
      StopDrains(ss, es, c, b, n - 1);
      assert ss[n] == Do(ss[n - 1], es[n - 1], c);
      StepDrains(ss[n - 1], es[n - 1], c);
    }
  }

  predicate AllEnded(s: State) {
    s.stop.Stopped? ==> forall j :: 0 <= j < |s.tasks| ==> s.tasks[j].Ended?
  }

  lemma {:induction false} StopAccounts(ss: seq<State>, es: seq<Step>, c: Config, b: nat, id: string)
    requires Run(ss, es, c) && ss[0] == Init(ss[0].clock) && b < |es| && es[b].StopBegin?
    requires forall i :: b < i < |es| ==> !es[i].Body? && !es[i].Recorded?
    requires forall i :: b < i <= |es| ==> ss[i].stop != StopCrashed
    requires ss[|es|].stop.Stopped?
    ensures Posts(Is429, id, ss[|es|].posts) == Rows(Carried, id, ss[|es|].rows) + Rows(Carried, id, ss[|es|].lost)
  {
    var n := |es|;
    RunConserves(ss, es, c, n, id);
    StopDrains(ss, es, c, b, n);
    TasksFrozen(ss, es, c, b, n);
    NoneHeld(ss[n].tasks, id);
    assert Pending(ss[n].d, id) == 0;
  }

  lemma {:induction false} TasksFrozen(ss: seq<State>, es: seq<Step>, c: Config, b: nat, n: nat)
    requires Run(ss, es, c) && b < n <= |es| && es[b].StopBegin?
    requires forall i :: b < i < n ==> !es[i].Body? && !es[i].Recorded?
    ensures ss[n].stop.Joining? ==> ss[n].stop.tasks == |ss[n].tasks|
    ensures !ss[n].stop.NotStopping? && AllEnded(ss[n])
  {
    assert Enabled(ss[n - 1], es[n - 1]) && ss[n] == Do(ss[n - 1], es[n - 1], c);
    if n > b + 1 { TasksFrozen(ss, es, c, b, n - 1); }
  }

  lemma {:induction false} NoneHeld(ts: seq<Task>, id: string)
    requires forall j :: 0 <= j < |ts| ==> ts[j].Ended?
    ensures Tasks(HeldCount, id, ts) == 0
  {
    if ts != [] { NoneHeld(ts[..|ts| - 1], id); }
  }

  // ---------------------------------------------------------------- cooldown

  /** Requests for `id` that have passed the cooldown check but have not yet moved `lastFired`. */
  function InFlight(s: State, id: string): nat {
    Posts(IsAdmitted, id, s.posts) + Tasks(IsUnmarked, id, s.tasks)
  }

  predicate Forward(s: State, e: Step) {
    match e
    case Tick(t) => t >= s.clock
    case Body(_, later) => later >= s.clock
    case _ => true
  }

  /** Any two fires of `id` are at least `gap` apart. */
  predicate Spaced(fires: seq<Fire>, id: string, gap: int) {
    forall a, b :: 0 <= a < b < |fires| && fires[a].id == id && fires[b].id == id ==>
      fires[b].at - fires[a].at >= gap
  }

  predicate Cooled(s: State, id: string, gap: int) {
    id in s.d.lastFired ==> s.clock - s.d.lastFired[id] >= gap
  }

  ghost predicate Timed(s: State, id: string, gap: int) {
    && Spaced(s.fires, id, gap)
    && (id in s.d.lastFired ==> s.d.lastFired[id] <= s.clock)
    && (forall a :: 0 <= a < |s.fires| && s.fires[a].id == id ==>
          id in s.d.lastFired && s.fires[a].at <= s.d.lastFired[id])
    && (InFlight(s, id) > 0 ==> Cooled(s, id, gap))
  }

  /** How one step changes the number in flight. */
  function Delta(s: State, e: Step, c: Config, id: string): int
    requires Enabled(s, e)
  {
    match e
    case Body(i, _) => PostWeight(IsAdmitted, id, Do(s, e, c).posts[i])
    case Recorded(i, ok) => if ok then 0 else 0 - PostWeight(IsAdmitted, id, s.posts[i])
    case Begin(j) => if s.tasks[j].id == id && id !in s.d.suppressed then -1 else 0
    case Flushed(j, _) => if s.tasks[j].id == id then -1 else 0
    case _ => 0
  }

  lemma PostStepMoves(s: State, e: Step, c: Config, id: string)
    requires Enabled(s, e) && (e.Body? || e.Recorded?)
    ensures InFlight(Do(s, e, c), id) == InFlight(s, id) + Delta(s, e, c, id)
  {
    var s' := Do(s, e, c);
    PostsUpdate(IsAdmitted, id, s.posts, e.i, s'.posts[e.i]);
    if e.Recorded? { TasksSnoc(IsUnmarked, id, s.tasks, Spawned(s.posts[e.i].req.triggerId)); }
  }

  lemma InFlightMoves(s: State, e: Step, c: Config, id: string)
    requires Enabled(s, e)
    ensures InFlight(Do(s, e, c), id) == InFlight(s, id) + Delta(s, e, c, id)
  {
    match e
    case Body(_, _) => PostStepMoves(s, e, c, id);
    case Recorded(_, _) => PostStepMoves(s, e, c, id);
    case Begin(j) => TasksUpdate(IsUnmarked, id, s.tasks, j, AfterBegin(s, j).tasks[j]);
    case Flushed(j, ok) => TasksUpdate(IsUnmarked, id, s.tasks, j, AfterFlushed(s, j, ok).tasks[j]);
    case Finish(j) => TasksUpdate(IsUnmarked, id, s.tasks, j, Ended(s.tasks[j].id));
    case Arrive(r) => PostsSnoc(IsAdmitted, id, s.posts, Waiting(r));
    case _ =>
  }

  /** A fire is recorded only while its own request is in flight, so with one in flight at most the
      check it passed is still the latest word on the cooldown. */
  lemma StepTimed(s: State, e: Step, c: Config, id: string, gap: int)
    requires Enabled(s, e) && Forward(s, e) && WellKeyed(c.registry)
    requires id in c.registry && c.registry[id].cooldown == Some(gap)
    requires Timed(s, id, gap) && InFlight(s, id) <= 1
    ensures Timed(Do(s, e, c), id, gap)
  {
    match e
    case Begin(j) =>
      InFlightMoves(s, e, c, id);
      if s.tasks[j].id !in s.d.suppressed { MarkTimed(s, j, id, gap); }
    case Flushed(j, ok) =>
      InFlightMoves(s, e, c, id);
      var row := SuppressedRow(s.tasks[j].id, s.tasks[j].held);
      if ok { MarkTimed(s.(rows := s.rows + [row]), j, id, gap); }
    case Body(i, later) => BodyTimed(s, i, later, c, id, gap);
    case _ => InFlightMoves(s, e, c, id);
  }

  /** A request is admitted for `id` only when its cooldown has run out. */
  lemma BodyTimed(s: State, i: nat, later: int, c: Config, id: string, gap: int)
    requires Enabled(s, Body(i, later)) && later >= s.clock && WellKeyed(c.registry)
    requires id in c.registry && c.registry[id].cooldown == Some(gap)
    requires Timed(s, id, gap)
    ensures Timed(AfterBody(s, i, later, c), id, gap)
  {
    PostStepMoves(s, Body(i, later), c, id);
    var s' := AfterBody(s, i, later, c);
    assert s'.d.lastFired == s.d.lastFired && s'.fires == s.fires && s'.clock == later;
  }

  lemma MarkTimed(s: State, j: nat, id: string, gap: int)
    requires j < |s.tasks| && (s.tasks[j].Spawned? || s.tasks[j].Flushing?) && gap >= 1
    requires Timed(s, id, gap) && InFlight(s, id) <= 1
    ensures Timed(Mark(s, j), id, gap)
  {
    TaskCounted(IsUnmarked, id, s.tasks, j);
    TasksUpdate(IsUnmarked, id, s.tasks, j, Running(s.tasks[j].id));
  }

  /** With at most one request in flight for a trigger at any time and a clock that does not go
      back, its fires are at least one cooldown apart, whatever else is interleaved. */
  lemma {:induction false} CooldownHolds(ss: seq<State>, es: seq<Step>, c: Config, n: nat, id: string, gap: int)
    requires Run(ss, es, c) && ss[0] == Init(ss[0].clock) && n <= |es| && WellKeyed(c.registry)
    requires id in c.registry && c.registry[id].cooldown == Some(gap)
    requires forall i :: 0 <= i < n ==> Forward(ss[i], es[i]) && InFlight(ss[i], id) <= 1
    ensures Timed(ss[n], id, gap) && Spaced(ss[n].fires, id, gap)
  {
    if n > 0 {
      CooldownHolds(ss, es, c, n - 1, id, gap);
      StepTimed(ss[n - 1], es[n - 1], c, id, gap);
    }
  }

  // ---------------------------------------------------------------- when a request is suppressed

  /** The mark of a trigger is its last fire, and fires come in the order of time. */
  ghost predicate MarksFires(s: State) {
    && (forall a :: 0 <= a < |s.fires| ==>
          s.fires[a].id in s.d.lastFired && s.fires[a].at <= s.d.lastFired[s.fires[a].id])
    && (forall id :: id in s.d.lastFired ==> s.d.lastFired[id] <= s.clock && Fire(id, s.d.lastFired[id]) in s.fires)
  }

  lemma MarkMarks(s: State, j: nat)
    requires j < |s.tasks| && MarksFires(s)
    ensures MarksFires(Mark(s, j))
  {
    var f := Fire(s.tasks[j].id, s.clock);
    assert f in s.fires + [f];
  }

  lemma {:induction false} RunMarks(ss: seq<State>, es: seq<Step>, c: Config, n: nat)
    requires Run(ss, es, c) && ss[0] == Init(ss[0].clock) && n <= |es|
    requires forall i :: 0 <= i < n ==> Forward(ss[i], es[i])
    ensures MarksFires(ss[n])
  {
    if n > 0 {
      var s, e := ss[n - 1], es[n - 1];
      RunMarks(ss, es, c, n - 1);
      assert Forward(s, e);
      StepMarks(s, e, c);
    }
  }

  lemma StepMarks(s: State, e: Step, c: Config)
    requires Enabled(s, e) && Forward(s, e) && MarksFires(s)
    ensures MarksFires(Do(s, e, c))
  {
    match e
    case Begin(j) => if s.tasks[j].id !in s.d.suppressed { MarkMarks(s, j); }
    case Flushed(j, ok) =>
      if ok { MarkMarks(s.(rows := s.rows + [SuppressedRow(s.tasks[j].id, s.tasks[j].held)]), j); }
    case Body(i, later) =>
      var s' := AfterBody(s, i, later, c);
      assert s'.fires == s.fires && s'.d.lastFired == s.d.lastFired && s'.clock >= s.clock;
    case _ =>
      var s' := Do(s, e, c);
      assert s'.fires == s.fires && s'.d.lastFired == s.d.lastFired && s'.clock >= s.clock;
  }

  /** The trigger has fired less than its cooldown ago. */
  ghost predicate FiredLately(s: State, t: Trigger) {
    && t.cooldown.Some?
    && exists a :: 0 <= a < |s.fires| && s.fires[a].id == t.id && s.clock - s.fires[a].at < t.cooldown.value
  }

  /** In every run with a clock that does not go back, an accepted request is answered 429 exactly when its
      trigger has a cooldown and a fire of it is younger than that; otherwise it is admitted. So cooldowns
      run out, and a trigger without one admits every accepted request. */
  lemma SuppressedIff(ss: seq<State>, es: seq<Step>, c: Config, n: nat)
    requires Run(ss, es, c) && ss[0] == Init(ss[0].clock) && n < |es| && WellKeyed(c.registry)
    requires forall i :: 0 <= i < n ==> Forward(ss[i], es[i])
    requires es[n].Body? && Enabled(ss[n], es[n]) && Accepted(ss[n].posts[es[n].i].req, c)
    ensures var r := ss[n].posts[es[n].i].req;
            ss[n + 1].posts == ss[n].posts[es[n].i := if FiredLately(ss[n], c.registry[r.triggerId])
                                                      then Answered(r, 429) else Admitted(r)]
  {
    RunMarks(ss, es, c, n);
    var s, id := ss[n], ss[n].posts[es[n].i].req.triggerId;
    assert ss[n + 1] == Do(s, es[n], c);
    if id in s.d.lastFired {
      var a :| 0 <= a < |s.fires| && s.fires[a] == Fire(id, s.d.lastFired[id]);
    }
  }

  // ---------------------------------------------------------------- what a pending record tells

  /** The times of the 429s answered for `id` since its pending record was last taken out. */
  function PendingTimes(ss: seq<State>, es: seq<Step>, n: nat, id: string): seq<int>
    requires |ss| == |es| + 1 && n <= |es|
  {
    if n == 0 then []
    else
      var before, s, e := PendingTimes(ss, es, n - 1, id), ss[n - 1], es[n - 1];
      if e.Body? && e.i < |s.posts| && e.i < |ss[n].posts|
         && s.posts[e.i].req.triggerId == id && ss[n].posts[e.i] == Answered(s.posts[e.i].req, 429)
      then before + [e.later]
      else if id in ss[n].d.suppressed then before
      else []
  }

  /** In every run a pending record counts the 429s of its trigger since the record before it was taken
      out, and holds the times of the first and the last of them. */
  lemma {:induction false} PendingTells(ss: seq<State>, es: seq<Step>, c: Config, n: nat, id: string)
    requires Run(ss, es, c) && ss[0] == Init(ss[0].clock) && n <= |es|
    ensures var times, d := PendingTimes(ss, es, n, id), ss[n].d;
            if times == [] then id !in d.suppressed
            else id in d.suppressed && d.suppressed[id] == Suppression(|times|, times[0], times[|times| - 1])
  {
    if n > 0 {
      PendingTells(ss, es, c, n - 1, id);
      assert Enabled(ss[n - 1], es[n - 1]) && ss[n] == Do(ss[n - 1], es[n - 1], c);
    }
  }

  /** The record was pending for `id` in one of the first `n` states. */
  ghost predicate WasPending(ss: seq<State>, n: nat, id: string, r: Suppression) {
    exists k :: 0 <= k < n && k < |ss| && id in ss[k].d.suppressed && ss[k].d.suppressed[id] == r
  }

  ghost predicate AllWerePending(ss: seq<State>, n: nat, s: State) {
    && (forall row :: row in s.rows && row.SuppressedRow? ==> WasPending(ss, n, row.id, row.s))
    && (forall row :: row in s.lost && row.SuppressedRow? ==> WasPending(ss, n, row.id, row.s))
    && (forall t :: t in s.tasks && t.Flushing? ==> WasPending(ss, n, t.id, t.held))
    && (s.stop.StopFlushing? ==> WasPending(ss, n, s.stop.id, s.stop.held))
  }

  lemma StayedPending(ss: seq<State>, n: nat, s: State)
    requires AllWerePending(ss, n, s)
    ensures AllWerePending(ss, n + 1, s)
  {
    forall id, r | WasPending(ss, n, id, r) ensures WasPending(ss, n + 1, id, r) {}
  }

  /** Suppression rows, written or lost, and the records tasks hold on to, are pending records as they were
      when they were taken out. */
  lemma {:induction false} RowsWerePending(ss: seq<State>, es: seq<Step>, c: Config, n: nat)
    requires Run(ss, es, c) && ss[0] == Init(ss[0].clock) && n <= |es|
    ensures AllWerePending(ss, n, ss[n])
  {
    if n > 0 {
      var s, e := ss[n - 1], es[n - 1];
      RowsWerePending(ss, es, c, n - 1);
      StayedPending(ss, n - 1, s);
      forall id | id in s.d.suppressed ensures WasPending(ss, n, id, s.d.suppressed[id]) {}
      StepWerePending(ss, n, s, e, c);
    }
  }

  lemma StepWerePending(ss: seq<State>, n: nat, s: State, e: Step, c: Config)
    requires Enabled(s, e) && AllWerePending(ss, n, s)
    requires forall id :: id in s.d.suppressed ==> WasPending(ss, n, id, s.d.suppressed[id])
    ensures AllWerePending(ss, n, Do(s, e, c))
  {
    match e
    case Begin(j) =>
      var s' := AfterBegin(s, j);
      assert s'.rows == s.rows && s'.lost == s.lost && s'.stop == s.stop;
      TaskWerePending(ss, n, s, s', j);
    case Flushed(j, ok) =>
      var s' := AfterFlushed(s, j, ok);
      assert s.tasks[j] in s.tasks;
      TaskWerePending(ss, n, s, s', j);
    case Finish(j) => TaskWerePending(ss, n, s, Do(s, e, c), j);
    case _ =>
  }

  lemma TaskWerePending(ss: seq<State>, n: nat, s: State, s': State, j: nat)
    requires AllWerePending(ss, n, s) && j < |s.tasks| == |s'.tasks| && s'.tasks == s.tasks[j := s'.tasks[j]]
    requires s'.tasks[j].Flushing? ==> WasPending(ss, n, s'.tasks[j].id, s'.tasks[j].held)
    ensures forall t :: t in s'.tasks && t.Flushing? ==> WasPending(ss, n, t.id, t.held)
  {
    forall t | t in s'.tasks && t.Flushing? ensures WasPending(ss, n, t.id, t.held) {
      var k :| 0 <= k < |s'.tasks| && s'.tasks[k] == t;
      if k != j { assert s.tasks[k] in s.tasks; }
    }
  }

  // ---------------------------------------------------------------- and fails otherwise

  function DoAll(s: State, es: seq<Step>, c: Config): Option<State>
    decreases |es|
  {
    if es == [] then Some(s)
    else if Enabled(s, es[0]) then DoAll(Do(s, es[0], c), es[1..], c)
    else None
  }

  lemma {:induction false} DoAllConcat(s: State, xs: seq<Step>, ys: seq<Step>, c: Config)
    requires DoAll(s, xs, c).Some?
    ensures DoAll(s, xs + ys, c) == DoAll(DoAll(s, xs, c).value, ys, c)
    decreases |xs|
  {
    if xs == [] {
      assert xs + ys == ys;
    } else {
      assert (xs + ys)[1..] == xs[1..] + ys;
      DoAllConcat(Do(s, xs[0], c), xs[1..], ys, c);
    }
  }

  predicate NoClock(es: seq<Step>) {
    forall i :: 0 <= i < |es| ==> !es[i].Tick? && !es[i].Body?
  }

  lemma OneStep(s: State, e: Step, c: Config)
    requires Enabled(s, e)
    ensures DoAll(s, [e], c) == Some(Do(s, e, c))
  {
    assert [e][1..] == [];
  }

  /** From any state, a task of `id` that has not marked yet can go on to mark at the current clock. */
  lemma TaskCanMark(s: State, j: nat, id: string, c: Config) returns (es: seq<Step>, s': State)
    requires j < |s.tasks| && (s.tasks[j].Spawned? || s.tasks[j].Flushing?) && s.tasks[j].id == id
    decreases s.tasks[j].Spawned?
    ensures NoClock(es) && DoAll(s, es, c) == Some(s')
    ensures s'.fires == s.fires + [Fire(id, s.clock)] && s'.clock == s.clock
    ensures InFlight(s', id) + 1 == InFlight(s, id)
  {
    if s.tasks[j].Flushing? {
      es, s' := [Flushed(j, true)], Do(s, Flushed(j, true), c);
      InFlightMoves(s, es[0], c, id);
      OneStep(s, es[0], c);
    } else if id in s.d.suppressed {
      var mid := Do(s, Begin(j), c);
      InFlightMoves(s, Begin(j), c, id);
      OneStep(s, Begin(j), c);
      var rest;
      rest, s' := TaskCanMark(mid, j, id, c);
      es := [Begin(j)] + rest;
      DoAllConcat(s, [Begin(j)], rest, c);
    } else {
      es, s' := [Begin(j)], Do(s, Begin(j), c);
      InFlightMoves(s, es[0], c, id);
      OneStep(s, es[0], c);
    }
  }

  lemma CanMark(s: State, id: string, c: Config) returns (es: seq<Step>, s': State)
    requires InFlight(s, id) > 0
    ensures NoClock(es) && DoAll(s, es, c) == Some(s')
    ensures s'.fires == s.fires + [Fire(id, s.clock)] && s'.clock == s.clock
    ensures InFlight(s', id) + 1 == InFlight(s, id)
  {
    if Tasks(IsUnmarked, id, s.tasks) > 0 {
      var j := ATask(IsUnmarked, id, s.tasks);
      es, s' := TaskCanMark(s, j, id, c);
    } else {
      var i := APost(IsAdmitted, id, s.posts);
      var first := Recorded(i, true);
      InFlightMoves(s, first, c, id);
      OneStep(s, first, c);
      var rest;
      rest, s' := TaskCanMark(Do(s, first, c), |s.tasks|, id, c);
      es := [first] + rest;
      DoAllConcat(s, [first], rest, c);
    }
  }

  /** As soon as two requests are in flight for a trigger, the rest of the run may fire it twice at
      the same instant: the cooldown is not enforced between them. */
  lemma TwoInFlightBreakCooldown(s: State, id: string, gap: int, c: Config) returns (es: seq<Step>, s': State)
    requires InFlight(s, id) >= 2 && gap > 0
    ensures NoClock(es) && DoAll(s, es, c) == Some(s')
    ensures !Spaced(s'.fires, id, gap)
  {
    var first, mid := CanMark(s, id, c);
    var second;
    second, s' := CanMark(mid, id, c);
    es := first + second;
    DoAllConcat(s, first, second, c);
    var n := |s.fires|;
    assert s'.fires[n] == Fire(id, s.clock) && s'.fires[n + 1] == Fire(id, s.clock);
  }

  /** The shortest such run: two requests decided before either fire has marked the trigger. */
  lemma TwoPostsFireTogether(r: Request, c: Config, clock: int, gap: int) returns (es: seq<Step>, s': State)
    requires Accepted(r, c) && WellKeyed(c.registry) && c.registry[r.triggerId].cooldown == Some(gap)
    ensures DoAll(Init(clock), es, c) == Some(s')
    ensures !Spaced(s'.fires, r.triggerId, gap)
  {
    var s0 := Init(clock);
    var s1 := Do(s0, Arrive(r), c);
    var s2 := Do(s1, Arrive(r), c);
    var s3 := Do(s2, Body(0, clock), c);
    var s4 := Do(s3, Body(1, clock), c);
    var head := [Arrive(r)] + ([Arrive(r)] + ([Body(0, clock)] + [Body(1, clock)]));
    OneStep(s0, Arrive(r), c);
    OneStep(s1, Arrive(r), c);
    OneStep(s2, Body(0, clock), c);
    OneStep(s3, Body(1, clock), c);
    DoAllConcat(s2, [Body(0, clock)], [Body(1, clock)], c);
    DoAllConcat(s1, [Arrive(r)], [Body(0, clock)] + [Body(1, clock)], c);
    DoAllConcat(s0, [Arrive(r)], [Arrive(r)] + ([Body(0, clock)] + [Body(1, clock)]), c);
    InFlightMoves(s2, Body(0, clock), c, r.triggerId);
    InFlightMoves(s3, Body(1, clock), c, r.triggerId);
    var tail;
    tail, s' := TwoInFlightBreakCooldown(s4, r.triggerId, gap, c);
    es := head + tail;
    DoAllConcat(s0, head, tail, c);
  }
}
