/** The brain loop: ask the model, run the tools it asked for under the policy, repeat up to a cap. */
module Brain {
  import opened Prelude
  import opened AuditClamp
  import opened Allowlist
  import opened Wire

  datatype AuditKind = ServiceCalled | PolicyDenied | ToolCalled | ToolDenied

  /** Everything the brain does to the world, in order. */
  datatype Effect =
    | Judged(asked: Asked, allowed: bool)
    | HaCalled(call: ServiceCall)
    | Dispatched(capability: string, input: Value)
    | Audited(kind: AuditKind)

  datatype WorkerResult = WorkerResult(success: bool, error: string, result: Value)

  datatype Reply = Reply(content: string, uses: seq<ToolUse>)

  /** The collaborators. A number is the length of the trace so far, so that the same request may
      fare differently at different times; `None` and `false` are exceptions. */
  datatype Env = Env(
    haConfigured: bool,
    registryConfigured: bool,
    parse: Value -> Option<ServiceCall>,
    judge: Asked -> Option<Decision>,
    haCall: (nat, ServiceCall) -> bool,
    dispatch: (nat, string, Value) -> Option<WorkerResult>,
    audit: nat -> Option<nat>,
    dumps: Value -> string,
    gateway: (nat, seq<Message>) -> Option<Reply>)

  /** One tool use handled: its effects, and its result unless an exception escaped. */
  datatype Handled = Handled(effects: seq<Effect>, result: Option<ToolResult>)

  function Raised(effects: seq<Effect>): Handled {
    Handled(effects, None)
  }

  function Success(effects: seq<Effect>, use: ToolUse, content: string): Handled {
    Handled(effects, Some(ToolResult(use.id, content, false)))
  }

  function Failure(effects: seq<Effect>, use: ToolUse, content: string): Handled {
    Handled(effects, Some(ToolResult(use.id, content, true)))
  }

  /** Policy, then Home Assistant, then the audit row. */
  function ServiceUse(env: Env, n: nat, use: ToolUse): Handled {
    match env.parse(use.input)
    case None => Failure([], use, "Invalid call_service input")
    case Some(call) =>
      if !env.haConfigured then Raised([])
      else
        var asked := env.judge(Service(call));
        if asked.None? then Raised([]) else
        var decision := asked.value;
        var judged := [Judged(Service(call), decision.allowed)];
        if !decision.allowed then
          if env.audit(n + 1).None? then Raised(judged)
          else Failure(judged + [Audited(PolicyDenied)], use, "Denied: " + decision.reason)
        else
          var acted := judged + [HaCalled(call)];
          if !env.haCall(n + 1, call) || env.audit(n + 2).None? then Raised(acted)
          else
            Success(acted + [Audited(ServiceCalled)], use,
                    "OK: " + call.domain + "." + call.service + " dispatched (audit_log_id="
                    + Decimal(env.audit(n + 2).value) + ").")
  }

  /** Policy, then the worker, then the audit row. */
  function GatedUse(env: Env, n: nat, use: ToolUse, tool: string): Handled
    requires IsGated(tool)
  {
    if !env.registryConfigured then Raised([])
    else
      var asked := env.judge(Tool(tool, use.input));
      if asked.None? then Raised([]) else
      var decision := asked.value;
      var judged := [Judged(Tool(tool, use.input), decision.allowed)];
      if !decision.allowed then
        if env.audit(n + 1).None? then Raised(judged)
        else Failure(judged + [Audited(ToolDenied)], use, "Denied: " + decision.reason)
      else
        var acted := judged + [Dispatched(CapabilityOf(tool), use.input)];
        var r := env.dispatch(n + 1, CapabilityOf(tool), use.input);
        if r.None? || env.audit(n + 2).None? then Raised(acted)
        else if !r.value.success then
          Failure(acted + [Audited(ToolCalled)], use, tool + " failed: " + r.value.error)
        else Success(acted + [Audited(ToolCalled)], use, env.dumps(r.value.result))
  }

  /** The two recall tools go to their worker without a policy decision. */
  function RecallUse(env: Env, n: nat, use: ToolUse): Handled
    requires IsRecall(use.name)
  {
    if !env.registryConfigured then Raised([])
    else
      var acted := [Dispatched(CapabilityOf(use.name), use.input)];
      var r := env.dispatch(n, CapabilityOf(use.name), use.input);
      if r.None? then Raised(acted)
      else if !r.value.success then Failure(acted, use, use.name + " failed: " + r.value.error)
      else Success(acted, use, env.dumps(r.value.result))
  }

  predicate IsGated(name: string) {
    name in {"calculator", "web_search", "calendar_read", "notify"}
  }

  predicate IsRecall(name: string) {
    name in {"recall_memory", "semantic_recall"}
  }

  /** What the registry looks a worker up by. */
  function CapabilityOf(name: string): string
    requires IsRecall(name) || IsGated(name)
  {
    if name == "recall_memory" then "memory.recall"
    else if name == "semantic_recall" then "memory.semantic_recall"
    else if name == "calculator" then "tool.calculator"
    else if name == "web_search" then "tool.web_search"
    else if name == "calendar_read" then "tool.calendar_read"
    else "tool.notify"
  }

  function HandleUse(env: Env, n: nat, use: ToolUse): Handled {
    if use.name == "call_service" then ServiceUse(env, n, use)
    else if IsRecall(use.name) then RecallUse(env, n, use)
    else if IsGated(use.name) then GatedUse(env, n, use, use.name)
    else Failure([], use, "Unknown tool: " + use.name)
  }

  /** How one use is handled, given the length of the trace so far. */
  type Handler = (nat, ToolUse) -> Handled

  /** A turn's tool uses in order; an exception ends the turn. */
  datatype Turned = Turned(effects: seq<Effect>, results: Option<seq<ToolResult>>)

  function HandleAll(handle: Handler, n: nat, uses: seq<ToolUse>): Turned {
    if uses == [] then Turned([], Some([]))
    else
      var before := HandleAll(handle, n, uses[..|uses| - 1]);
      if before.results.None? then before
      else Then(before, handle(n + |before.effects|, uses[|uses| - 1]))
  }

  function Then(before: Turned, h: Handled): Turned
    requires before.results.Some?
  {
    Turned(before.effects + h.effects, if h.result.None? then None else Some(before.results.value + [h.result.value]))
  }

  lemma TurnSnoc(handle: Handler, n: nat, uses: seq<ToolUse>, i: nat, before: Turned)
    requires i < |uses| && before == HandleAll(handle, n, uses[..i]) && before.results.Some?
    ensures HandleAll(handle, n, uses[..i + 1]) == Then(before, handle(n + |before.effects|, uses[i]))
  {
    assert uses[..i + 1][..i] == uses[..i];
  }

  function AssistantTurn(r: Reply): Message {
    Message(Assistant, r.content, r.uses, [])
  }

  function ResultTurn(results: seq<ToolResult>): Message {
    Message(User, "", [], results)
  }

  datatype Outcome = Finished(last: Reply) | Aborted

  /** A whole run: the final transcript, every list handed to the gateway, every effect. */
  datatype RunResult = RunResult(messages: seq<Message>, asked: seq<seq<Message>>, effects: seq<Effect>,
                                 outcome: Outcome)

  /** What the two nodes work with: the model, and the tools. */
  datatype Graph = Graph(ask: (nat, seq<Message>) -> Option<Reply>, handle: Handler)

  function GraphOf(env: Env): Graph {
    Graph(env.gateway, (n: nat, use: ToolUse) => HandleUse(env, n, use))
  }

  function Loop(g: Graph, cap: int, iteration: nat, n: nat, ms: seq<Message>): RunResult
    decreases if cap > iteration then cap - iteration else 0
  {
    var reply := g.ask(iteration, ms);
    if reply.None? then RunResult(ms, [ms], [], Aborted)
    else
      var said := ms + [AssistantTurn(reply.value)];
      if reply.value.uses == [] || iteration + 1 >= cap then RunResult(said, [ms], [], Finished(reply.value))
      else
        var t := HandleAll(g.handle, n, reply.value.uses);
        if t.results.None? then RunResult(said, [ms], t.effects, Aborted)
        else
          var next := Exchange(ms, reply.value, t.results.value);
          Continued(ms, t.effects, Loop(g, cap, iteration + 1, n + |t.effects|, next))
  }

  /** The list after one answered assistant turn. */
  function Exchange(ms: seq<Message>, reply: Reply, results: seq<ToolResult>): seq<Message> {
    ms + [AssistantTurn(reply)] + [ResultTurn(results)]
  }

  function Continued(ms: seq<Message>, effects: seq<Effect>, rest: RunResult): RunResult {
    RunResult(rest.messages, [ms] + rest.asked, effects + rest.effects, rest.outcome)
  }

  /** The continuing case of the loop, for a reply and a turn already worked out. */
  lemma LoopContinues(g: Graph, cap: int, iteration: nat, n: nat, ms: seq<Message>, reply: Reply, t: Turned)
    requires g.ask(iteration, ms) == Some(reply) && reply.uses != [] && iteration + 1 < cap
    requires t == HandleAll(g.handle, n, reply.uses) && t.results.Some?
    ensures Loop(g, cap, iteration, n, ms)
         == Continued(ms, t.effects, Loop(g, cap, iteration + 1, n + |t.effects|, Exchange(ms, reply, t.results.value)))
  {
  }

  // ---------------------------------------------------------------- the code

  class BrainGraph {
    const env: Env
    const maxIterations: int
    var trace: seq<Effect>

    constructor (env: Env, maxIterations: int)
      ensures this.env == env && this.maxIterations == maxIterations && trace == []
    {
      this.env := env;
      this.maxIterations := maxIterations;
      trace := [];
    }

    method Record(kind: AuditKind) returns (id: Option<nat>)
      modifies this
      ensures id == env.audit(|old(trace)|)
      ensures trace == if id.Some? then old(trace) + [Audited(kind)] else old(trace)
    {
      id := env.audit(|trace|);
      if id.Some? { trace := trace + [Audited(kind)]; }
    }

    method Evaluate(asked: Asked) returns (d: Option<Decision>)
      modifies this
      ensures d == env.judge(asked)
      ensures trace == if d.None? then old(trace) else old(trace) + [Judged(asked, d.value.allowed)]
    {
      d := env.judge(asked);
      if d.Some? { trace := trace + [Judged(asked, d.value.allowed)]; }
    }

    /** The dispatch shared with the device routes. */
    method DispatchServiceCall(call: ServiceCall) returns (d: Option<Decision>, id: Option<nat>)
      modifies this
      ensures d == env.judge(Service(call))
      ensures d.None? ==> id.None? && trace == old(trace)
      ensures d.Some? ==>
              var judged := old(trace) + [Judged(Service(call), d.value.allowed)];
              if !d.value.allowed then
                id == env.audit(|judged|) && trace == judged + if id.Some? then [Audited(PolicyDenied)] else []
              else
                && id == (if env.haCall(|judged|, call) then env.audit(|judged| + 1) else None)
                && trace == judged + [HaCalled(call)] + if id.Some? then [Audited(ServiceCalled)] else []
    {
      d := Evaluate(Service(call));
      if d.None? { return d, None; }
      if !d.value.allowed {
        id := Record(PolicyDenied);
        return;
      }
      var ok := env.haCall(|trace|, call);
      trace := trace + [HaCalled(call)];
      if !ok { return d, None; }
      id := Record(ServiceCalled);
    }

    method HandleCallService(use: ToolUse) returns (r: Option<ToolResult>)
      modifies this
      ensures var h := ServiceUse(env, |old(trace)|, use); trace == old(trace) + h.effects && r == h.result
    {
      var call := env.parse(use.input);
      if call.None? { return Some(ToolResult(use.id, "Invalid call_service input", true)); }
      if !env.haConfigured { return None; }
      var d, id := DispatchServiceCall(call.value);
      if id.None? { return None; }
      if d.value.allowed {
        return Some(ToolResult(use.id, "OK: " + call.value.domain + "." + call.value.service
                               + " dispatched (audit_log_id=" + Decimal(id.value) + ").", false));
      }
      r := Some(ToolResult(use.id, "Denied: " + d.value.reason, true));
    }

    method HandleRecall(use: ToolUse, capability: string) returns (r: Option<ToolResult>)
      requires IsRecall(use.name) && capability == CapabilityOf(use.name)
      modifies this
      ensures var h := RecallUse(env, |old(trace)|, use); trace == old(trace) + h.effects && r == h.result
    {
      if !env.registryConfigured { return None; }
      var w := env.dispatch(|trace|, capability, use.input);
      trace := trace + [Dispatched(capability, use.input)];
      if w.None? { return None; }
      if !w.value.success { return Some(ToolResult(use.id, use.name + " failed: " + w.value.error, true)); }
      r := Some(ToolResult(use.id, env.dumps(w.value.result), false));
    }

    method HandleGenericTool(use: ToolUse, tool: string, capability: string) returns (r: Option<ToolResult>)
      requires IsGated(tool) && capability == CapabilityOf(tool)
      modifies this
      ensures var h := GatedUse(env, |old(trace)|, use, tool); trace == old(trace) + h.effects && r == h.result
    {
      if !env.registryConfigured { return None; }
      var d := Evaluate(Tool(tool, use.input));
      if d.None? { return None; }
      if !d.value.allowed {
        var denied := Record(ToolDenied);
        if denied.None? { return None; }
        return Some(ToolResult(use.id, "Denied: " + d.value.reason, true));
      }
      var w := env.dispatch(|trace|, capability, use.input);
      trace := trace + [Dispatched(capability, use.input)];
      if w.None? { return None; }
      var called := Record(ToolCalled);
      if called.None? { return None; }
      if !w.value.success { return Some(ToolResult(use.id, tool + " failed: " + w.value.error, true)); }
      r := Some(ToolResult(use.id, env.dumps(w.value.result), false));
    }

    /** `g` stands for this object's model and tools. */
    ghost predicate Wired(g: Graph) {
      && g.ask == env.gateway
      && forall n: nat, use {:trigger HandleUse(env, n, use)} :: g.handle(n, use) == HandleUse(env, n, use)
    }

    method DispatchOne(use: ToolUse, ghost g: Graph) returns (r: Option<ToolResult>)
      requires Wired(g)
      modifies this
      ensures var h := g.handle(|old(trace)|, use); trace == old(trace) + h.effects && r == h.result
    {
      ghost var h := HandleUse(env, |trace|, use);
      if use.name == "call_service" { r := HandleCallService(use); }
      else if use.name == "recall_memory" { r := HandleRecall(use, "memory.recall"); }
      else if use.name == "semantic_recall" { r := HandleRecall(use, "memory.semantic_recall"); }
      else if use.name == "calculator" { r := HandleGenericTool(use, "calculator", "tool.calculator"); }
      else if use.name == "web_search" { r := HandleGenericTool(use, "web_search", "tool.web_search"); }
      else if use.name == "calendar_read" { r := HandleGenericTool(use, "calendar_read", "tool.calendar_read"); }
      else if use.name == "notify" { r := HandleGenericTool(use, "notify", "tool.notify"); }
      else { r := Some(ToolResult(use.id, "Unknown tool: " + use.name, true)); }
    }

    method DispatchTools(uses: seq<ToolUse>, ghost g: Graph) returns (results: Option<seq<ToolResult>>)
      requires Wired(g)
      modifies this
      ensures var t := HandleAll(g.handle, |old(trace)|, uses); trace == old(trace) + t.effects && results == t.results
    {
      var out: seq<ToolResult> := [];
      ghost var t := Turned([], Some([]));
      for i := 0 to |uses|
        invariant t == HandleAll(g.handle, |old(trace)|, uses[..i])
        invariant trace == old(trace) + t.effects && t.results == Some(out)
      {
        ghost var h := g.handle(|trace|, uses[i]);
        TurnSnoc(g.handle, |old(trace)|, uses, i, t);
        Regroup(old(trace), t.effects, h.effects);
        var r := DispatchOne(uses[i], g);
        t := Then(t, h);
        if r.None? {
          AbortSticks(g.handle, |old(trace)|, uses, i + 1, t);
          return None;
        }
        out := out + [r.value];
      }
      assert uses[..|uses|] == uses;
      results := Some(out);
    }

    /** The two-node graph from the first model call to its end. */
    method Run(initial: seq<Message>) returns (messages: seq<Message>, outcome: Outcome)
      modifies this
      ensures var r := Loop(GraphOf(env), maxIterations, 0, |old(trace)|, initial);
              && messages == r.messages && outcome == r.outcome
              && trace == old(trace) + r.effects
    {
      messages, outcome := Drive(initial, GraphOf(env));
    }

    method Drive(initial: seq<Message>, ghost g: Graph) returns (messages: seq<Message>, outcome: Outcome)
      requires Wired(g)
      modifies this
      ensures var r := Loop(g, maxIterations, 0, |old(trace)|, initial);
              && messages == r.messages && outcome == r.outcome
              && trace == old(trace) + r.effects
    {
      messages := initial;
      var iteration := 0;
      ghost var r := Loop(g, maxIterations, 0, |trace|, initial);
      while true
        invariant Ahead(old(trace), r, trace, Loop(g, maxIterations, iteration, |trace|, messages))
        decreases if maxIterations > iteration then maxIterations - iteration else 0
      {
        var ended: Option<Outcome>;
        messages, ended := Round(messages, iteration, g, old(trace), r);
        if ended.Some? { return messages, ended.value; }
        iteration := iteration + 1;
      }
    }

    /** Both nodes once: `call_llm`, the routing decision, `dispatch_tools`. */
    method Round(ms: seq<Message>, iteration: nat, ghost g: Graph, ghost start: seq<Effect>, ghost r: RunResult)
      returns (messages: seq<Message>, ended: Option<Outcome>)
      requires Wired(g) && Ahead(start, r, trace, Loop(g, maxIterations, iteration, |trace|, ms))
      modifies this
      ensures ended.Some? ==> messages == r.messages && ended.value == r.outcome && trace == start + r.effects
      ensures ended.None? ==>
                && iteration + 1 < maxIterations
                && Ahead(start, r, trace, Loop(g, maxIterations, iteration + 1, |trace|, messages))
    {
      var reply := env.gateway(iteration, ms);
      if reply.None? { return ms, Some(Aborted); }
      messages := ms + [AssistantTurn(reply.value)];
      if reply.value.uses == [] || iteration + 1 >= maxIterations { return messages, Some(Finished(reply.value)); }
      messages, ended := Tools(ms, reply.value, iteration, g, start, r);
    }

    /** The second node, when the first one routes to it. */
    method Tools(ms: seq<Message>, reply: Reply, iteration: nat, ghost g: Graph, ghost start: seq<Effect>,
                 ghost r: RunResult)
      returns (messages: seq<Message>, ended: Option<Outcome>)
      requires Wired(g) && Ahead(start, r, trace, Loop(g, maxIterations, iteration, |trace|, ms))
      requires g.ask(iteration, ms) == Some(reply) && reply.uses != [] && iteration + 1 < maxIterations
      modifies this
      ensures ended.Some? ==> messages == r.messages && ended.value == r.outcome && trace == start + r.effects
      ensures ended.None? ==> Ahead(start, r, trace, Loop(g, maxIterations, iteration + 1, |trace|, messages))
    {
      ghost var was, t := trace, HandleAll(g.handle, |trace|, reply.uses);
      var results := DispatchTools(reply.uses, g);
      messages := ms + [AssistantTurn(reply)];
      if results.None? { return messages, Some(Aborted); }
      messages := messages + [ResultTurn(results.value)];
      ended := None;
      Resumes(g, maxIterations, iteration, ms, reply, t, start, r, was);
    }
  }

  /** What is still to come after `trace` completes the run `r` that began at `start`. */
  predicate Ahead(start: seq<Effect>, r: RunResult, trace: seq<Effect>, rest: RunResult) {
    r.messages == rest.messages && r.outcome == rest.outcome && start + r.effects == trace + rest.effects
  }

  /** One answered turn moves effects from what is still to come into the trace. */
  lemma Resumes(g: Graph, cap: int, iteration: nat, ms: seq<Message>, reply: Reply, t: Turned,
                start: seq<Effect>, r: RunResult, trace: seq<Effect>)
    requires Ahead(start, r, trace, Loop(g, cap, iteration, |trace|, ms))
    requires g.ask(iteration, ms) == Some(reply) && reply.uses != [] && iteration + 1 < cap
    requires t == HandleAll(g.handle, |trace|, reply.uses) && t.results.Some?
    ensures Ahead(start, r, trace + t.effects,
                  Loop(g, cap, iteration + 1, |trace| + |t.effects|, Exchange(ms, reply, t.results.value)))
  {
    LoopContinues(g, cap, iteration, |trace|, ms, reply, t);
    var next := Exchange(ms, reply, t.results.value);
    Regroup(trace, t.effects, Loop(g, cap, iteration + 1, |trace| + |t.effects|, next).effects);
  }

  lemma {:induction false} AbortSticks(handle: Handler, n: nat, uses: seq<ToolUse>, k: nat, t: Turned)
    requires k <= |uses| && t == HandleAll(handle, n, uses[..k]) && t.results.None?
    ensures t == HandleAll(handle, n, uses)
  {
    if k < |uses| {
      assert uses[..|uses| - 1][..k] == uses[..k];
      AbortSticks(handle, n, uses[..|uses| - 1], k, t);
    } else {
      assert uses[..k] == uses;
    }
  }

  // ---------------------------------------------------------------- the transcript

  function Max(a: int, b: int): int {
    if a < b then b else a
  }

  /** At most max(1, cap) questions are put to the model, and tool uses are left unanswered only when
      all of them have been used up. */
  lemma {:induction false} LoopBounded(g: Graph, cap: int, iteration: nat, n: nat, ms: seq<Message>)
    ensures var r := Loop(g, cap, iteration, n, ms);
            && 1 <= |r.asked| <= Max(1, cap - iteration)
            && (r.outcome.Finished? && r.outcome.last.uses != [] ==> iteration + |r.asked| >= cap)
            && (r.outcome.Finished? ==>
                  r.messages != [] && r.messages[|r.messages| - 1] == AssistantTurn(r.outcome.last))
    decreases if cap > iteration then cap - iteration else 0
  {
    var reply := g.ask(iteration, ms);
    if reply.Some? && reply.value.uses != [] && iteration + 1 < cap {
      var t := HandleAll(g.handle, n, reply.value.uses);
      if t.results.Some? {
        LoopBounded(g, cap, iteration + 1, n + |t.effects|, Exchange(ms, reply.value, t.results.value));
      }
    }
  }

  /** Every use is answered under its own id. */
  ghost predicate Echoes(handle: Handler) {
    forall n: nat, use :: handle(n, use).result.Some? ==> handle(n, use).result.value.useId == use.id
  }

  lemma ToolsEcho(env: Env)
    ensures Echoes(GraphOf(env).handle)
  {
  }

  lemma {:induction false} ResultsMatch(handle: Handler, n: nat, uses: seq<ToolUse>)
    requires Echoes(handle) && HandleAll(handle, n, uses).results.Some?
    ensures ResultIds(HandleAll(handle, n, uses).results.value) == UseIds(uses)
  {
    if uses != [] {
      var front, last := uses[..|uses| - 1], uses[|uses| - 1];
      ResultsMatch(handle, n, front);
      var before := HandleAll(handle, n, front);
      IdsSnoc(front, last, before.results.value, handle(n + |before.effects|, last).result.value);
      assert uses == front + [last];
    }
  }

  lemma IdsSnoc(uses: seq<ToolUse>, use: ToolUse, results: seq<ToolResult>, result: ToolResult)
    ensures UseIds(uses + [use]) == UseIds(uses) + [use.id]
    ensures ResultIds(results + [result]) == ResultIds(results) + [result.useId]
  {
  }

  /** `b` is the reply to assistant turn `a`: the same ids, in the same order, and nothing else. */
  predicate Replies(a: Message, b: Message) {
    && a.role.Assistant? && a.uses != [] && a.results == []
    && b.role.User? && b.content == "" && b.uses == []
    && ResultIds(b.results) == UseIds(a.uses)
  }

  /** From position `from` on, assistant turns with tool uses alternate with their replies. */
  predicate Alternates(ms: seq<Message>, from: nat) {
    && from <= |ms|
    && (forall i :: from <= i < |ms| && (i - from) % 2 == 0 ==> ms[i].role.Assistant? && ms[i].results == [])
    && (forall i :: from < i < |ms| && (i - from) % 2 == 1 ==> Replies(ms[i - 1], ms[i]))
  }

  /** The transcript goes on from `ms` with assistant turns alternating with their replies; a finished
      run ends on an assistant turn; the lists asked are the prefixes that end before one. */
  ghost predicate GoesOn(ms: seq<Message>, r: RunResult) {
    && ms <= r.messages && Alternates(r.messages, |ms|)
    && (r.outcome.Finished? ==> |r.messages| == |ms| + 2 * |r.asked| - 1)
    && (forall k :: 0 <= k < |r.asked| ==> |ms| + 2 * k <= |r.messages| && r.asked[k] == r.messages[..|ms| + 2 * k])
  }

  lemma {:induction false} LoopAlternates(g: Graph, cap: int, iteration: nat, n: nat, ms: seq<Message>)
    requires Echoes(g.handle)
    ensures GoesOn(ms, Loop(g, cap, iteration, n, ms))
    decreases if cap > iteration then cap - iteration else 0
  {
    var reply := g.ask(iteration, ms);
    if reply.None? {
      assert ms[..|ms|] == ms;
      return;
    }
    var t := HandleAll(g.handle, n, reply.value.uses);
    if reply.value.uses != [] && iteration + 1 < cap && t.results.Some? {
      LoopContinues(g, cap, iteration, n, ms, reply.value, t);
      var next := Exchange(ms, reply.value, t.results.value);
      LoopAlternates(g, cap, iteration + 1, n + |t.effects|, next);
      ResultsMatch(g.handle, n, reply.value.uses);
      ContinuedGoesOn(ms, AssistantTurn(reply.value), ResultTurn(t.results.value), t.effects,
                      Loop(g, cap, iteration + 1, n + |t.effects|, next));
    } else {
      StoppedGoesOn(ms, AssistantTurn(reply.value), Loop(g, cap, iteration, n, ms));
    }
  }

  lemma StoppedGoesOn(ms: seq<Message>, a: Message, r: RunResult)
    requires r.messages == ms + [a] && r.asked == [ms] && a.role.Assistant? && a.results == []
    ensures GoesOn(ms, r)
  {
    assert (ms + [a])[..|ms|] == ms;
  }

  /** The transcript of every run of the brain has that shape, starting from the initial list. */
  lemma RunAlternates(env: Env, cap: int, n: nat, initial: seq<Message>)
    ensures GoesOn(initial, Loop(GraphOf(env), cap, 0, n, initial))
  {
    ToolsEcho(env);
    LoopAlternates(GraphOf(env), cap, 0, n, initial);
  }

  lemma ContinuedGoesOn(ms: seq<Message>, a: Message, b: Message, effects: seq<Effect>, s: RunResult)
    requires Replies(a, b) && GoesOn(ms + [a] + [b], s)
    ensures GoesOn(ms, Continued(ms, effects, s))
  {
    var r := Continued(ms, effects, s);
    var next := ms + [a] + [b];
    assert |next| == |ms| + 2 && next[..|ms|] == ms;
    PrefixTrans(ms, next, s.messages);
    AlternatesExtends(s.messages, ms, a, b);
    forall k | 0 <= k < |r.asked| ensures |ms| + 2 * k <= |r.messages| && r.asked[k] == r.messages[..|ms| + 2 * k] {
      if k > 0 { assert r.asked[k] == s.asked[k - 1]; }
    }
  }

  lemma PrefixTrans(a: seq<Message>, b: seq<Message>, c: seq<Message>)
    requires a <= b <= c
    ensures a <= c && c[..|a|] == a
  {
  }

  lemma AlternatesExtends(all: seq<Message>, ms: seq<Message>, a: Message, b: Message)
    requires ms + [a] + [b] <= all && Alternates(all, |ms| + 2) && Replies(a, b)
    ensures Alternates(all, |ms|)
  {
    var from := |ms|;
    assert all[from] == a && all[from + 1] == b;
    forall i | from <= i < |all| && (i - from) % 2 == 0 ensures all[i].role.Assistant? && all[i].results == [] {
      if i > from { assert i >= from + 2 && (i - (from + 2)) % 2 == 0; }
    }
    forall i | from < i < |all| && (i - from) % 2 == 1 ensures Replies(all[i - 1], all[i]) {
      if i > from + 1 { assert i > from + 2 && (i - (from + 2)) % 2 == 1; }
    }
  }

  lemma PairAppend(ms: seq<Message>, m: Message)
    ensures Pair([], ms + [m]) == if Pair([], ms).None? then None else PairOne(Pair([], ms).value, m)
  {
    assert (ms + [m])[..|ms|] == ms;
  }

  lemma ExchangePaired(ms: seq<Message>, reply: Reply, results: seq<ToolResult>)
    requires Paired(ms) && ResultIds(results) == UseIds(reply.uses) && results != []
    ensures Paired(Exchange(ms, reply, results))
  {
    assert |results| == |ResultIds(results)| == |UseIds(reply.uses)| == |reply.uses|;
    PairAppend(ms, AssistantTurn(reply));
    PairAppend(ms + [AssistantTurn(reply)], ResultTurn(results));
    assert UseIds(reply.uses)[|results|..] == [];
  }

  lemma {:induction false} QuestionPaired(g: Graph, cap: int, iteration: nat, n: nat, ms: seq<Message>, k: nat)
    requires Echoes(g.handle) && Paired(ms) && k < |Loop(g, cap, iteration, n, ms).asked|
    ensures Paired(Loop(g, cap, iteration, n, ms).asked[k])
    decreases k
  {
    if k > 0 {
      var reply := g.ask(iteration, ms).value;
      var t := HandleAll(g.handle, n, reply.uses);
      ResultsMatch(g.handle, n, reply.uses);
      assert |ResultIds(t.results.value)| == |UseIds(reply.uses)|;
      ExchangePaired(ms, reply, t.results.value);
      QuestionPaired(g, cap, iteration + 1, n + |t.effects|, Exchange(ms, reply, t.results.value), k - 1);
    }
  }

  /** Every list the brain hands to the gateway is paired if the initial one was, so its OpenAI and
      Ollama translations are well formed. */
  lemma EveryQuestionWellFormed(env: Env, cap: int, n: nat, initial: seq<Message>, system: Option<string>, d: Dialect,
                                k: nat)
    requires Paired(initial) && k < |Loop(GraphOf(env), cap, 0, n, initial).asked|
    ensures WellFormed(ToWire(Loop(GraphOf(env), cap, 0, n, initial).asked[k], system, d))
  {
    ToolsEcho(env);
    QuestionPaired(GraphOf(env), cap, 0, n, initial, k);
    WireIffPaired(Loop(GraphOf(env), cap, 0, n, initial).asked[k], system, d);
  }

  // ---------------------------------------------------------------- the policy gate

  /** A capability that may be used only with the policy's consent. */
  predicate NeedsConsent(capability: string) {
    capability in {"tool.calculator", "tool.web_search", "tool.calendar_read", "tool.notify"}
  }

  /** `capability` is that of the gated tool `tool`. */
  predicate Serves(capability: string, tool: string) {
    IsGated(tool) && CapabilityOf(tool) == capability
  }

  /** Each gated tool has a capability of its own, and no other capability needs consent. */
  lemma CapabilitiesApart(a: string, b: string)
    requires (IsRecall(a) || IsGated(a)) && (IsRecall(b) || IsGated(b))
    ensures CapabilityOf(a) == CapabilityOf(b) ==> a == b
    ensures NeedsConsent(CapabilityOf(a)) <==> IsGated(a)
  {
    assert "memory.recall"[0] == 'm' && "memory.semantic_recall"[0] == 'm' && "tool.notify"[0] == 't';
    assert "tool.calculator"[5] == 'c' && "tool.web_search"[5] == 'w';
  }

  /** The effect at `i`, if it acts on the world, comes right after a decision allowing just that. */
  predicate Consented(es: seq<Effect>, i: nat)
    requires i < |es|
  {
    match es[i]
    case HaCalled(call) => i > 0 && es[i - 1] == Judged(Service(call), true)
    case Dispatched(capability, input) =>
      NeedsConsent(capability) ==>
        && i > 0 && es[i - 1].Judged? && es[i - 1].allowed
        && es[i - 1].asked.Tool? && es[i - 1].asked.input == input && Serves(capability, es[i - 1].asked.name)
    case _ => true
  }

  /** A refusal is followed by its denial row, or by nothing at all. */
  predicate RefusalFinal(es: seq<Effect>, i: nat)
    requires i < |es|
  {
    es[i].Judged? && !es[i].allowed && i + 1 < |es| ==>
      es[i + 1] == Audited(if es[i].asked.Service? then PolicyDenied else ToolDenied)
  }

  /** An audit row comes right after what it records. */
  predicate RowTrue(es: seq<Effect>, i: nat)
    requires i < |es|
  {
    es[i].Audited? ==> i > 0 && match es[i].kind
      case ServiceCalled => es[i - 1].HaCalled?
      case PolicyDenied => es[i - 1].Judged? && es[i - 1].asked.Service? && !es[i - 1].allowed
      case ToolCalled => es[i - 1].Dispatched? && NeedsConsent(es[i - 1].capability)
      case ToolDenied => es[i - 1].Judged? && es[i - 1].asked.Tool? && !es[i - 1].allowed
  }

  /** A decision is the policy's own. */
  predicate Decides(judge: Asked -> Option<Decision>, e: Effect) {
    e.Judged? ==> judge(e.asked).Some? && judge(e.asked).value.allowed == e.allowed
  }

  predicate Gated(judge: Asked -> Option<Decision>, es: seq<Effect>) {
    forall i :: 0 <= i < |es| ==> Consented(es, i) && RefusalFinal(es, i) && RowTrue(es, i) && Decides(judge, es[i])
  }

  /** Nothing is left hanging on a refusal. */
  predicate Settled(es: seq<Effect>) {
    es == [] || !es[|es| - 1].Judged?
  }

  lemma GatedConcat(judge: Asked -> Option<Decision>, xs: seq<Effect>, ys: seq<Effect>)
    requires Gated(judge, xs) && Gated(judge, ys) && Settled(xs)
    ensures Gated(judge, xs + ys)
    ensures Settled(ys) ==> Settled(xs + ys)
  {
    var es := xs + ys;
    forall i | 0 <= i < |es|
      ensures Consented(es, i) && RefusalFinal(es, i) && RowTrue(es, i) && Decides(judge, es[i])
    {
      if i < |xs| {
        assert es[i] == xs[i] && (i > 0 ==> es[i - 1] == xs[i - 1]);
        assert Consented(xs, i) && RefusalFinal(xs, i) && RowTrue(xs, i) && Decides(judge, xs[i]);
        if i + 1 < |xs| { assert es[i + 1] == xs[i + 1]; }
      } else {
        var j := i - |xs|;
        assert es[i] == ys[j] && (j > 0 ==> es[i - 1] == ys[j - 1]);
        assert Consented(ys, j) && RefusalFinal(ys, j) && RowTrue(ys, j) && Decides(judge, ys[j]);
        if j + 1 < |ys| { assert es[i + 1] == ys[j + 1]; }
      }
    }
  }

  /** What holds of a turn so far, and of the handling of one more use. */
  predicate TurnSafe(judge: Asked -> Option<Decision>, effects: seq<Effect>, done: bool) {
    Gated(judge, effects) && (done ==> Settled(effects))
  }

  lemma ThenSafe(judge: Asked -> Option<Decision>, before: Turned, h: Handled)
    requires before.results.Some? && TurnSafe(judge, before.effects, true) && TurnSafe(judge, h.effects, h.result.Some?)
    ensures TurnSafe(judge, Then(before, h).effects, Then(before, h).results.Some?)
  {
    GatedConcat(judge, before.effects, h.effects);
  }

  ghost predicate SafeTools(judge: Asked -> Option<Decision>, handle: Handler) {
    forall n: nat, use :: TurnSafe(judge, handle(n, use).effects, handle(n, use).result.Some?)
  }

  lemma {:induction false} TurnIsSafe(judge: Asked -> Option<Decision>, handle: Handler, n: nat, uses: seq<ToolUse>)
    requires SafeTools(judge, handle)
    ensures TurnSafe(judge, HandleAll(handle, n, uses).effects, HandleAll(handle, n, uses).results.Some?)
  {
    if uses != [] {
      var before := HandleAll(handle, n, uses[..|uses| - 1]);
      TurnIsSafe(judge, handle, n, uses[..|uses| - 1]);
      if before.results.Some? { ThenSafe(judge, before, handle(n + |before.effects|, uses[|uses| - 1])); }
    }
  }

  lemma ServiceSafe(env: Env, n: nat, use: ToolUse)
    ensures TurnSafe(env.judge, ServiceUse(env, n, use).effects, ServiceUse(env, n, use).result.Some?)
  {
  }

  lemma AllowedSafe(judge: Asked -> Option<Decision>, tool: string, input: Value)
    requires IsGated(tool) && Decides(judge, Judged(Tool(tool, input), true))
    ensures var acted := [Judged(Tool(tool, input), true)] + [Dispatched(CapabilityOf(tool), input)];
            TurnSafe(judge, acted, true) && TurnSafe(judge, acted + [Audited(ToolCalled)], true)
  {
    CapabilitiesApart(tool, tool);
  }

  lemma ToolSafe(env: Env, n: nat, use: ToolUse, tool: string)
    requires IsGated(tool)
    ensures TurnSafe(env.judge, GatedUse(env, n, use, tool).effects, GatedUse(env, n, use, tool).result.Some?)
  {
    var asked := env.judge(Tool(tool, use.input));
    if asked.Some? && asked.value.allowed { AllowedSafe(env.judge, tool, use.input); }
  }

  lemma RecallSafe(env: Env, n: nat, use: ToolUse)
    requires IsRecall(use.name)
    ensures TurnSafe(env.judge, RecallUse(env, n, use).effects, RecallUse(env, n, use).result.Some?)
  {
    CapabilitiesApart(use.name, use.name);
  }

  lemma UseSafe(env: Env, n: nat, use: ToolUse)
    ensures TurnSafe(env.judge, HandleUse(env, n, use).effects, HandleUse(env, n, use).result.Some?)
  {
    if use.name == "call_service" { ServiceSafe(env, n, use); }
    else if IsRecall(use.name) { RecallSafe(env, n, use); }
    else if IsGated(use.name) { ToolSafe(env, n, use, use.name); }
  }

  lemma {:induction false} LoopGated(judge: Asked -> Option<Decision>, g: Graph, cap: int, iteration: nat, n: nat,
                                     ms: seq<Message>)
    requires SafeTools(judge, g.handle)
    ensures Gated(judge, Loop(g, cap, iteration, n, ms).effects)
    decreases if cap > iteration then cap - iteration else 0
  {
    var reply := g.ask(iteration, ms);
    if reply.Some? && reply.value.uses != [] && iteration + 1 < cap {
      var t := HandleAll(g.handle, n, reply.value.uses);
      TurnIsSafe(judge, g.handle, n, reply.value.uses);
      if t.results.Some? {
        var next := Exchange(ms, reply.value, t.results.value);
        LoopGated(judge, g, cap, iteration + 1, n + |t.effects|, next);
        LoopContinues(g, cap, iteration, n, ms, reply.value, t);
        GatedConcat(judge, t.effects, Loop(g, cap, iteration + 1, n + |t.effects|, next).effects);
      }
    }
  }

  /** On every trace, aborted or not, each Home Assistant call and each gated dispatch comes right
      after an allowing decision on that same call, and a refused call is only ever audited. */
  lemma RunGated(env: Env, cap: int, n: nat, initial: seq<Message>)
    ensures Gated(env.judge, Loop(GraphOf(env), cap, 0, n, initial).effects)
  {
    var g := GraphOf(env);
    forall n: nat, use ensures TurnSafe(env.judge, g.handle(n, use).effects, g.handle(n, use).result.Some?) {
      UseSafe(env, n, use);
    }
    LoopGated(env.judge, GraphOf(env), cap, 0, n, initial);
  }

  /** The policy in force is the allow-list with these rules. */
  ghost predicate Enforces(judge: Asked -> Option<Decision>, services: seq<ServiceRule>, tools: seq<ToolRule>,
                           say: Wording) {
    forall asked :: judge(asked) == Verdict(services, tools, say, asked)
  }

  /** Under the allow-list, whatever the model asks for, a run calls Home Assistant only for calls that a
      rule of the file permits, and a gated worker only for inputs that a rule for that tool matches. */
  lemma OnlyListedEffects(env: Env, services: seq<ServiceRule>, tools: seq<ToolRule>, say: Wording,
                          cap: int, n: nat, initial: seq<Message>, i: nat)
    requires Enforces(env.judge, services, tools, say) && i < |Loop(GraphOf(env), cap, 0, n, initial).effects|
    ensures match Loop(GraphOf(env), cap, 0, n, initial).effects[i]
            case HaCalled(call) => SomeLetsThrough(services, call)
            case Dispatched(capability, input) =>
              NeedsConsent(capability) ==>
                exists tool, k: nat :: Serves(capability, tool) && Reached(tools, k, tool, input)
            case _ => true
  {
    var es := Loop(GraphOf(env), cap, 0, n, initial).effects;
    RunGated(env, cap, n, initial);
    assert Consented(es, i);
    if i > 0 {
      assert Decides(env.judge, es[i - 1]);
      if es[i - 1].Judged? { assert env.judge(es[i - 1].asked) == Verdict(services, tools, say, es[i - 1].asked); }
    }
    match es[i]
    case HaCalled(call) => var ids := AllowedExactly(services, tools, say, call);
    case Dispatched(capability, input) =>
      if NeedsConsent(capability) {
        var tool := es[i - 1].asked.name;
        ToolAllowedIff(tools, tool, input);
        ToolVerdicts(tools, tool, input);
      }
    case _ =>
  }

  // ---------------------------------------------------------------- audit counts

  function CountAudits(es: seq<Effect>, kinds: set<AuditKind>): nat {
    if es == [] then 0
    else CountAudits(es[..|es| - 1], kinds) + if es[|es| - 1].Audited? && es[|es| - 1].kind in kinds then 1 else 0
  }

  function ValidServiceUses(env: Env, uses: seq<ToolUse>): nat {
    if uses == [] then 0
    else
      var u := uses[|uses| - 1];
      ValidServiceUses(env, uses[..|uses| - 1]) + if u.name == "call_service" && env.parse(u.input).Some? then 1 else 0
  }

  function GatedUses(uses: seq<ToolUse>): nat {
    if uses == [] then 0
    else GatedUses(uses[..|uses| - 1]) + if IsGated(uses[|uses| - 1].name) then 1 else 0
  }

  const SERVICE_ROWS := {ServiceCalled, PolicyDenied}
  const TOOL_ROWS := {ToolCalled, ToolDenied}

  /** One service row for each valid call_service use, one tool row for each gated use. */
  predicate TurnRecorded(env: Env, es: seq<Effect>, uses: seq<ToolUse>) {
    CountAudits(es, SERVICE_ROWS) == ValidServiceUses(env, uses) && CountAudits(es, TOOL_ROWS) == GatedUses(uses)
  }

  predicate UseRecorded(env: Env, es: seq<Effect>, use: ToolUse) {
    && CountAudits(es, SERVICE_ROWS) == (if use.name == "call_service" && env.parse(use.input).Some? then 1 else 0)
    && CountAudits(es, TOOL_ROWS) == if IsGated(use.name) then 1 else 0
  }

  lemma {:induction false} CountConcat(xs: seq<Effect>, ys: seq<Effect>, kinds: set<AuditKind>)
    ensures CountAudits(xs + ys, kinds) == CountAudits(xs, kinds) + CountAudits(ys, kinds)
  {
    if ys == [] {
      assert xs + ys == xs;
    } else {
      assert (xs + ys)[..|xs + ys| - 1] == xs + ys[..|ys| - 1];
      CountConcat(xs, ys[..|ys| - 1], kinds);
    }
  }

  lemma CountSnoc(es: seq<Effect>, e: Effect, kinds: set<AuditKind>)
    ensures CountAudits(es + [e], kinds) == CountAudits(es, kinds) + if e.Audited? && e.kind in kinds then 1 else 0
  {
    assert (es + [e])[..|es|] == es;
  }

  lemma CountPrefix(a: Effect, b: Effect, c: Effect, kinds: set<AuditKind>)
    requires !a.Audited? && !b.Audited?
    ensures CountAudits([], kinds) == CountAudits([a], kinds) == CountAudits([a] + [b], kinds) == 0
    ensures CountAudits([a] + [c], kinds) == CountAudits([a] + [b] + [c], kinds)
         == if c.Audited? && c.kind in kinds then 1 else 0
  {
    assert [] + [a] == [a];
    CountSnoc([], a, kinds);
    CountSnoc([a], b, kinds);
    CountSnoc([a], c, kinds);
    CountSnoc([a] + [b], c, kinds);
  }

  lemma UseCounted(env: Env, n: nat, use: ToolUse)
    requires HandleUse(env, n, use).result.Some?
    ensures UseRecorded(env, HandleUse(env, n, use).effects, use)
  {
    var es := HandleUse(env, n, use).effects;
    if es != [] {
      var b := if |es| > 2 then es[1] else es[0];
      CountPrefix(es[0], b, es[|es| - 1], SERVICE_ROWS);
      CountPrefix(es[0], b, es[|es| - 1], TOOL_ROWS);
      if |es| == 1 { assert es == [es[0]]; }
      if |es| == 2 { assert es == [es[0]] + [es[1]]; }
      if |es| == 3 { assert es == [es[0]] + [es[1]] + [es[2]]; }
    }
  }

  ghost predicate RecordingTools(env: Env, handle: Handler) {
    forall n: nat, use :: handle(n, use).result.Some? ==> UseRecorded(env, handle(n, use).effects, use)
  }

  lemma {:induction false} TurnCounted(env: Env, handle: Handler, n: nat, uses: seq<ToolUse>)
    requires RecordingTools(env, handle) && HandleAll(handle, n, uses).results.Some?
    ensures TurnRecorded(env, HandleAll(handle, n, uses).effects, uses)
  {
    if uses != [] {
      var before := HandleAll(handle, n, uses[..|uses| - 1]);
      TurnCounted(env, handle, n, uses[..|uses| - 1]);
      var more := handle(n + |before.effects|, uses[|uses| - 1]).effects;
      CountConcat(before.effects, more, SERVICE_ROWS);
      CountConcat(before.effects, more, TOOL_ROWS);
    }
  }

  /** Tool uses of the assistant turns from `from` on that were answered by a next turn. */
  function Answering(ms: seq<Message>, from: nat): seq<ToolUse>
    decreases |ms| - from
  {
    if from + 1 >= |ms| then [] else ms[from].uses + Answering(ms, from + 2)
  }

  lemma {:induction false} ServiceUsesConcat(env: Env, xs: seq<ToolUse>, ys: seq<ToolUse>)
    ensures ValidServiceUses(env, xs + ys) == ValidServiceUses(env, xs) + ValidServiceUses(env, ys)
    ensures GatedUses(xs + ys) == GatedUses(xs) + GatedUses(ys)
  {
    if ys == [] {
      assert xs + ys == xs;
    } else {
      assert (xs + ys)[..|xs + ys| - 1] == xs + ys[..|ys| - 1];
      ServiceUsesConcat(env, xs, ys[..|ys| - 1]);
    }
  }

  /** The rows in the audit log are those the answered tool uses after `from` call for. */
  predicate Counted(env: Env, r: RunResult, from: nat) {
    TurnRecorded(env, r.effects, Answering(r.messages, from))
  }

  lemma ContinuedCounted(env: Env, ms: seq<Message>, reply: Reply, results: seq<ToolResult>, effects: seq<Effect>,
                         s: RunResult)
    requires Exchange(ms, reply, results) <= s.messages && Counted(env, s, |ms| + 2)
    requires TurnRecorded(env, effects, reply.uses)
    ensures Counted(env, Continued(ms, effects, s), |ms|)
  {
    CountConcat(effects, s.effects, SERVICE_ROWS);
    CountConcat(effects, s.effects, TOOL_ROWS);
    assert s.messages[|ms|] == Exchange(ms, reply, results)[|ms|] == AssistantTurn(reply);
    ServiceUsesConcat(env, reply.uses, Answering(s.messages, |ms| + 2));
  }

  lemma LoopExtends(g: Graph, cap: int, iteration: nat, n: nat, ms: seq<Message>)
    requires Echoes(g.handle)
    ensures ms <= Loop(g, cap, iteration, n, ms).messages
  {
    LoopAlternates(g, cap, iteration, n, ms);
  }

  lemma {:induction false} LoopCounted(env: Env, g: Graph, cap: int, iteration: nat, n: nat, ms: seq<Message>)
    requires Echoes(g.handle) && RecordingTools(env, g.handle) && Loop(g, cap, iteration, n, ms).outcome.Finished?
    ensures Counted(env, Loop(g, cap, iteration, n, ms), |ms|)
    decreases if cap > iteration then cap - iteration else 0
  {
    var reply := g.ask(iteration, ms).value;
    if reply.uses != [] && iteration + 1 < cap {
      var t := HandleAll(g.handle, n, reply.uses);
      LoopContinues(g, cap, iteration, n, ms, reply, t);
      var next := Exchange(ms, reply, t.results.value);
      var rest := Loop(g, cap, iteration + 1, n + |t.effects|, next);
      LoopCounted(env, g, cap, iteration + 1, n + |t.effects|, next);
      TurnCounted(env, g.handle, n, reply.uses);
      LoopExtends(g, cap, iteration + 1, n + |t.effects|, next);
      RestCounted(env, ms, reply, t, next, rest, Loop(g, cap, iteration, n, ms));
    } else {
      StoppedCounted(env, ms, reply);
    }
  }

  lemma RestCounted(env: Env, ms: seq<Message>, reply: Reply, t: Turned, next: seq<Message>, rest: RunResult,
                    r: RunResult)
    requires t.results.Some? && TurnRecorded(env, t.effects, reply.uses)
    requires next == Exchange(ms, reply, t.results.value) && next <= rest.messages && Counted(env, rest, |next|)
    requires r == Continued(ms, t.effects, rest)
    ensures Counted(env, r, |ms|)
  {
    ContinuedCounted(env, ms, reply, t.results.value, t.effects, rest);
  }

  lemma StoppedCounted(env: Env, ms: seq<Message>, reply: Reply)
    ensures Counted(env, RunResult(ms + [AssistantTurn(reply)], [ms], [], Finished(reply)), |ms|)
  {
  }

  /** A run that is not aborted leaves exactly the rows its answered tool uses call for. */
  lemma RunCounted(env: Env, cap: int, n: nat, initial: seq<Message>)
    requires Loop(GraphOf(env), cap, 0, n, initial).outcome.Finished?
    ensures Counted(env, Loop(GraphOf(env), cap, 0, n, initial), |initial|)
  {
    ToolsEcho(env);
    var g := GraphOf(env);
    forall n: nat, use | g.handle(n, use).result.Some? ensures UseRecorded(env, g.handle(n, use).effects, use) {
      UseCounted(env, n, use);
    }
    LoopCounted(env, GraphOf(env), cap, 0, n, initial);
  }
}
