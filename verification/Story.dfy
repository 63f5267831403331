/** What a run of the brain did, told use by use: each effect belongs to a tool use the model asked for, and
    each result says what came of it. */
module Story {
  import opened Prelude
  import opened AuditClamp
  import opened Allowlist
  import opened Wire
  import opened Brain

  // ---------------------------------------------------------------- one tool use

  /** The worker tools, each with what the registry looks its worker up by. */
  predicate HasCapability(name: string, capability: string) {
    || (name == "calculator" && capability == "tool.calculator")
    || (name == "web_search" && capability == "tool.web_search")
    || (name == "calendar_read" && capability == "tool.calendar_read")
    || (name == "notify" && capability == "tool.notify")
    || (name == "recall_memory" && capability == "memory.recall")
    || (name == "semantic_recall" && capability == "memory.semantic_recall")
  }

  /** The effect is about this tool use: its own input is judged and dispatched, its own call is made. */
  predicate About(env: Env, e: Effect, u: ToolUse) {
    match e
    case Judged(Tool(name, input), _) => IsGated(name) && u.name == name && input == u.input
    case Judged(Service(call), _) => u.name == "call_service" && env.parse(u.input) == Some(call)
    case HaCalled(call) => u.name == "call_service" && env.parse(u.input) == Some(call)
    case Dispatched(capability, input) => HasCapability(u.name, capability) && input == u.input
    case Audited(kind) => if kind in SERVICE_ROWS then u.name == "call_service" else IsGated(u.name)
  }

  /** A decision is the policy's own answer to just that question. */
  predicate Own(env: Env, e: Effect) {
    e.Judged? ==> env.judge(e.asked).Some? && env.judge(e.asked).value.allowed == e.allowed
  }

  /** What an answered use has done: nothing, for input that is no call or a name that is no tool; one
      dispatch, for the recall tools; a refusal and its row; or a permission, the act and its row. */
  predicate Complete(env: Env, u: ToolUse, es: seq<Effect>) {
    if IsRecall(u.name) then |es| == 1 && es[0].Dispatched?
    else if IsGated(u.name) || (u.name == "call_service" && env.parse(u.input).Some?) then
      && |es| >= 2 && es[0].Judged?
      && if es[0].allowed
         then |es| == 3 && (if IsGated(u.name) then es[1].Dispatched? && es[2] == Audited(ToolCalled)
                            else es[1].HaCalled? && es[2] == Audited(ServiceCalled))
         else |es| == 2 && es[1] == Audited(if IsGated(u.name) then ToolDenied else PolicyDenied)
    else es == []
  }

  /** The result of an answered use that began when the trace was `n` long. */
  predicate ResultTrue(env: Env, n: nat, u: ToolUse, es: seq<Effect>, r: ToolResult)
    requires Complete(env, u, es)
  {
    if es == [] then
      r == ToolResult(u.id, if u.name == "call_service" then "Invalid call_service input"
                            else "Unknown tool: " + u.name, true)
    else if es[0].Judged? && !es[0].allowed then
      && env.judge(es[0].asked).Some? && env.audit(n + 1).Some?
      && r == ToolResult(u.id, "Denied: " + env.judge(es[0].asked).value.reason, true)
    else if es[0].Judged? && es[1].HaCalled? then
      var call := es[1].call;
      && env.haCall(n + 1, call) && env.audit(n + 2).Some?
      && r == ToolResult(u.id, "OK: " + call.domain + "." + call.service + " dispatched (audit_log_id="
                               + Decimal(env.audit(n + 2).value) + ").", false)
    else
      var at := if es[0].Judged? then 1 else 0;
      var worker := env.dispatch(n + at, es[at].capability, es[at].input);
      && worker.Some? && (es[0].Judged? ==> env.audit(n + 2).Some?)
      && r == if worker.value.success then ToolResult(u.id, env.dumps(worker.value.result), false)
              else ToolResult(u.id, u.name + " failed: " + worker.value.error, true)
  }

  /** What a use has done when an exception escapes, and which collaborator it came from. */
  predicate CutShort(env: Env, n: nat, u: ToolUse, es: seq<Effect>) {
    if es == [] then
      || (IsRecall(u.name) && !env.registryConfigured)
      || (IsGated(u.name) && (!env.registryConfigured || env.judge(Tool(u.name, u.input)).None?))
      || (u.name == "call_service" && env.parse(u.input).Some?
          && (!env.haConfigured || env.judge(Service(env.parse(u.input).value)).None?))
    else if |es| == 1 then
      || (IsRecall(u.name) && es[0].Dispatched? && env.dispatch(n, es[0].capability, es[0].input).None?)
      || (es[0].Judged? && !es[0].allowed && env.audit(n + 1).None?)
    else
      && |es| == 2 && es[0].Judged? && es[0].allowed
      && match es[1]
         case HaCalled(call) => !env.haCall(n + 1, call) || env.audit(n + 2).None?
         case Dispatched(capability, input) =>
           IsGated(u.name) && (env.dispatch(n + 1, capability, input).None? || env.audit(n + 2).None?)
         case _ => false
  }

  predicate UseTold(env: Env, n: nat, u: ToolUse, h: Handled) {
    && (forall k :: 0 <= k < |h.effects| ==> About(env, h.effects[k], u) && Own(env, h.effects[k]))
    && if h.result.Some? then Complete(env, u, h.effects) && ResultTrue(env, n, u, h.effects, h.result.value)
       else CutShort(env, n, u, h.effects)
  }

  lemma ServiceTold(env: Env, n: nat, u: ToolUse)
    requires u.name == "call_service"
    ensures UseTold(env, n, u, ServiceUse(env, n, u))
  {
  }

  lemma GatedTold(env: Env, n: nat, u: ToolUse)
    requires IsGated(u.name)
    ensures UseTold(env, n, u, GatedUse(env, n, u, u.name))
  {
  }

  lemma RecallTold(env: Env, n: nat, u: ToolUse)
    requires IsRecall(u.name)
    ensures UseTold(env, n, u, RecallUse(env, n, u))
  {
  }

  lemma HandledTold(env: Env, n: nat, u: ToolUse)
    ensures UseTold(env, n, u, HandleUse(env, n, u))
  {
    if u.name == "call_service" { ServiceTold(env, n, u); }
    else if IsRecall(u.name) { RecallTold(env, n, u); }
    else if IsGated(u.name) { GatedTold(env, n, u); }
  }

  // ---------------------------------------------------------------- many tool uses

  /** The effects of one use after another. */
  function Steps(told: seq<Handled>): seq<Effect> {
    if told == [] then [] else Steps(told[..|told| - 1]) + told[|told| - 1].effects
  }

  function Results(told: seq<Handled>): seq<ToolResult> {
    if told == [] then []
    else
      var last := told[|told| - 1].result;
      Results(told[..|told| - 1]) + if last.Some? then [last.value] else []
  }

  predicate Answered(told: seq<Handled>) {
    forall k :: 0 <= k < |told| ==> told[k].result.Some?
  }

  /** What is true of a use that began when the trace had some length. */
  type Spec = (nat, ToolUse, Handled) -> bool

  function SpecOf(env: Env): Spec {
    (n: nat, u: ToolUse, h: Handled) => UseTold(env, n, u, h)
  }

  /** The uses were handled from the first one on, in order, and nothing else was done. */
  ghost predicate Tells(spec: Spec, n: nat, uses: seq<ToolUse>, told: seq<Handled>) {
    |told| <= |uses| && forall k :: 0 <= k < |told| ==> TellsAt(spec, n, uses, told, k)
  }

  predicate TellsAt(spec: Spec, n: nat, uses: seq<ToolUse>, told: seq<Handled>, k: nat)
    requires k < |told| && k < |uses|
  {
    spec(n + |Steps(told[..k])|, uses[k], told[k])
  }

  lemma {:induction false} Joined(a: seq<Handled>, b: seq<Handled>)
    ensures Steps(a + b) == Steps(a) + Steps(b) && Results(a + b) == Results(a) + Results(b)
  {
    if b == [] {
      assert a + b == a;
    } else {
      var front := b[..|b| - 1];
      assert (a + b)[..|a + b| - 1] == a + front;
      Joined(a, front);
    }
  }

  lemma TellsJoined(spec: Spec, n: nat, uses: seq<ToolUse>, a: seq<Handled>, more: seq<ToolUse>, b: seq<Handled>)
    requires Tells(spec, n, uses, a) && |a| == |uses| && Tells(spec, n + |Steps(a)|, more, b)
    ensures Tells(spec, n, uses + more, a + b)
  {
    forall k | 0 <= k < |a + b| ensures TellsAt(spec, n, uses + more, a + b, k) {
      if k < |a| { TellsFirst(spec, n, uses, a, more, b, k); } else { TellsSecond(spec, n, uses, a, more, b, k - |a|); }
    }
  }

  lemma TellsFirst(spec: Spec, n: nat, uses: seq<ToolUse>, a: seq<Handled>, more: seq<ToolUse>, b: seq<Handled>, k: nat)
    requires k < |a| == |uses| && |b| <= |more| && TellsAt(spec, n, uses, a, k)
    ensures TellsAt(spec, n, uses + more, a + b, k)
  {
    assert (a + b)[..k] == a[..k];
  }

  lemma TellsSecond(spec: Spec, n: nat, uses: seq<ToolUse>, a: seq<Handled>, more: seq<ToolUse>, b: seq<Handled>,
                    k: nat)
    requires |a| == |uses| && k < |b| <= |more| && TellsAt(spec, n + |Steps(a)|, more, b, k)
    ensures TellsAt(spec, n, uses + more, a + b, |a| + k)
  {
    assert (a + b)[..|a| + k] == a + b[..k];
    Joined(a, b[..k]);
  }

  lemma TellsMore(spec: Spec, n: nat, uses: seq<ToolUse>, more: seq<ToolUse>, told: seq<Handled>)
    requires Tells(spec, n, uses, told)
    ensures Tells(spec, n, uses + more, told)
  {
    forall k | 0 <= k < |told| ensures TellsAt(spec, n, uses + more, told, k) {
      assert TellsAt(spec, n, uses, told, k);
    }
  }

  lemma TellsOne(spec: Spec, n: nat, u: ToolUse, h: Handled)
    requires spec(n, u, h)
    ensures Tells(spec, n, [u], [h]) && Steps([h]) == h.effects
    ensures Results([h]) == if h.result.Some? then [h.result.value] else []
  {
    assert [h][..0] == [] && Steps([]) == [] && Results([]) == [];
  }

  ghost predicate Truthful(spec: Spec, handle: Handler) {
    forall n: nat, use :: spec(n, use, handle(n, use))
  }

  /** The last one raised, the others were answered. */
  predicate CutAtLast(told: seq<Handled>) {
    told != [] && told[|told| - 1].result.None? && Answered(told[..|told| - 1])
  }

  ghost predicate TurnOf(t: Turned, told: seq<Handled>, uses: seq<ToolUse>) {
    && t.effects == Steps(told)
    && if t.results.Some? then |told| == |uses| && Answered(told) && Results(told) == t.results.value
       else CutAtLast(told)
  }

  lemma {:induction false} TurnTold(spec: Spec, handle: Handler, n: nat, uses: seq<ToolUse>)
    returns (told: seq<Handled>)
    requires Truthful(spec, handle)
    ensures Tells(spec, n, uses, told) && TurnOf(HandleAll(handle, n, uses), told, uses)
  {
    if uses == [] {
      told := [];
    } else {
      var front, last := uses[..|uses| - 1], uses[|uses| - 1];
      assert uses == front + [last];
      var before := HandleAll(handle, n, front);
      told := TurnTold(spec, handle, n, front);
      if before.results.None? {
        TellsMore(spec, n, front, [last], told);
      } else {
        told := TurnGrows(spec, n, front, told, last, handle(n + |before.effects|, last), before);
      }
    }
  }

  lemma TurnGrows(spec: Spec, n: nat, uses: seq<ToolUse>, told: seq<Handled>, u: ToolUse, h: Handled, before: Turned)
    returns (grown: seq<Handled>)
    requires Tells(spec, n, uses, told) && before.results.Some? && TurnOf(before, told, uses)
    requires spec(n + |before.effects|, u, h)
    ensures Tells(spec, n, uses + [u], grown) && TurnOf(Then(before, h), grown, uses + [u])
  {
    grown := told + [h];
    TellsOne(spec, n + |Steps(told)|, u, h);
    TellsJoined(spec, n, uses, told, [u], [h]);
    Joined(told, [h]);
    assert grown[..|told|] == told;
  }

  // ---------------------------------------------------------------- whole runs

  /** All tool uses the model asks for from position `from` of the transcript on. */
  function UsesFrom(ms: seq<Message>, from: nat): seq<ToolUse>
    decreases |ms| - from
  {
    if from >= |ms| then [] else ms[from].uses + UsesFrom(ms, from + 1)
  }

  /** All results given back to it. */
  function ResultsFrom(ms: seq<Message>, from: nat): seq<ToolResult>
    decreases |ms| - from
  {
    if from >= |ms| then [] else ms[from].results + ResultsFrom(ms, from + 1)
  }

  /** The run did what `told` says, and the transcript has its results; those of a turn that is cut short by
      an exception do not get there. */
  ghost predicate StoryOf(spec: Spec, n: nat, from: nat, r: RunResult, told: seq<Handled>) {
    && Tells(spec, n, UsesFrom(r.messages, from), told) && r.effects == Steps(told)
    && ResultsFrom(r.messages, from) <= Results(told)
    && (r.outcome.Finished? ==> Answered(told) && Results(told) == ResultsFrom(r.messages, from))
    && (Answered(told) || CutAtLast(told))
  }

  lemma {:induction false} LoopTold(spec: Spec, g: Graph, cap: int, iteration: nat, n: nat, ms: seq<Message>)
    returns (told: seq<Handled>)
    requires Echoes(g.handle) && Truthful(spec, g.handle)
    ensures StoryOf(spec, n, |ms|, Loop(g, cap, iteration, n, ms), told)
    decreases if cap > iteration then cap - iteration else 0
  {
    var r, reply := Loop(g, cap, iteration, n, ms), g.ask(iteration, ms);
    if reply.None? {
      told := [];
      return;
    }
    var said := ms + [AssistantTurn(reply.value)];
    SaidLast(ms, reply.value);
    if reply.value.uses == [] || iteration + 1 >= cap {
      told := [];
      return;
    }
    var t := HandleAll(g.handle, n, reply.value.uses);
    told := TurnTold(spec, g.handle, n, reply.value.uses);
    if t.results.Some? {
      LoopContinues(g, cap, iteration, n, ms, reply.value, t);
      var next := Exchange(ms, reply.value, t.results.value);
      var rest := Loop(g, cap, iteration + 1, n + |t.effects|, next);
      var more := LoopTold(spec, g, cap, iteration + 1, n + |t.effects|, next);
      LoopExtends(g, cap, iteration + 1, n + |t.effects|, next);
      told := StoryGrows(spec, n, ms, reply.value, t, told, rest, more);
    }
  }

  lemma SaidLast(ms: seq<Message>, reply: Reply)
    ensures var said := ms + [AssistantTurn(reply)];
            UsesFrom(said, |ms|) == reply.uses && ResultsFrom(said, |ms|) == []
  {
    var said := ms + [AssistantTurn(reply)];
    assert said[|ms|] == AssistantTurn(reply);
    assert UsesFrom(said, |ms| + 1) == [] && ResultsFrom(said, |ms| + 1) == [];
  }

  lemma ExchangeSays(ms: seq<Message>, reply: Reply, results: seq<ToolResult>, all: seq<Message>)
    requires Exchange(ms, reply, results) <= all
    ensures UsesFrom(all, |ms|) == reply.uses + UsesFrom(all, |ms| + 2)
    ensures ResultsFrom(all, |ms|) == results + ResultsFrom(all, |ms| + 2)
  {
    var next := Exchange(ms, reply, results);
    assert all[|ms|] == next[|ms|] == AssistantTurn(reply);
    assert all[|ms| + 1] == next[|ms| + 1] == ResultTurn(results);
    assert UsesFrom(all, |ms| + 1) == [] + UsesFrom(all, |ms| + 2);
    assert ResultsFrom(all, |ms|) == [] + ResultsFrom(all, |ms| + 1);
  }

  lemma StoryGrows(spec: Spec, n: nat, ms: seq<Message>, reply: Reply, t: Turned, told: seq<Handled>, rest: RunResult,
                   more: seq<Handled>) returns (all: seq<Handled>)
    requires Tells(spec, n, reply.uses, told) && t.results.Some? && TurnOf(t, told, reply.uses)
    requires Exchange(ms, reply, t.results.value) <= rest.messages
    requires StoryOf(spec, n + |t.effects|, |ms| + 2, rest, more)
    ensures StoryOf(spec, n, |ms|, Continued(ms, t.effects, rest), all)
  {
    all := told + more;
    ExchangeSays(ms, reply, t.results.value, rest.messages);
    TellsJoined(spec, n, reply.uses, told, UsesFrom(rest.messages, |ms| + 2), more);
    Joined(told, more);
    if CutAtLast(more) { assert all[..|all| - 1] == told + more[..|more| - 1]; }
  }

  /** Every run of the brain has such a story: its effects are, one after the other, those of the tool uses
      the model asked for, from the first one on; each judges, dispatches, calls and records just what its use
      asks; and each result in the transcript is the true result of its use. */
  lemma RunTold(env: Env, cap: int, n: nat, initial: seq<Message>) returns (told: seq<Handled>)
    ensures StoryOf(SpecOf(env), n, |initial|, Loop(GraphOf(env), cap, 0, n, initial), told)
  {
    ToolsEcho(env);
    var g := GraphOf(env);
    forall n: nat, use ensures SpecOf(env)(n, use, g.handle(n, use)) { HandledTold(env, n, use); }
    told := LoopTold(SpecOf(env), GraphOf(env), cap, 0, n, initial);
  }

  /** Question `k` is put to the model as it stands, and its answer is the next turn of the transcript; a
      question without an answer is the last one, and aborts the run. */
  predicate AnswerKept(g: Graph, iteration: nat, from: nat, r: RunResult, k: nat)
    requires k < |r.asked|
  {
    match g.ask(iteration + k, r.asked[k])
    case None => k == |r.asked| - 1 && r.outcome == Aborted && |r.messages| == from + 2 * k
    case Some(reply) =>
      && from + 2 * k < |r.messages|
      && r.messages[from + 2 * k] == Message(Assistant, reply.content, reply.uses, [])
      && (r.outcome.Finished? && k == |r.asked| - 1 ==> r.outcome.last == reply)
  }

  ghost predicate AnswersKept(g: Graph, iteration: nat, from: nat, r: RunResult) {
    forall k :: 0 <= k < |r.asked| ==> AnswerKept(g, iteration, from, r, k)
  }

  lemma AsksOnce(g: Graph, cap: int, iteration: nat, n: nat, ms: seq<Message>)
    ensures Loop(g, cap, iteration, n, ms).asked != []
  {
  }

  lemma {:induction false} LoopKeeps(g: Graph, cap: int, iteration: nat, n: nat, ms: seq<Message>)
    requires Echoes(g.handle)
    ensures AnswersKept(g, iteration, |ms|, Loop(g, cap, iteration, n, ms))
    decreases if cap > iteration then cap - iteration else 0
  {
    var reply := g.ask(iteration, ms);
    if reply.Some? && reply.value.uses != [] && iteration + 1 < cap {
      var t := HandleAll(g.handle, n, reply.value.uses);
      if t.results.Some? {
        LoopKeeps(g, cap, iteration + 1, n + |t.effects|, Exchange(ms, reply.value, t.results.value));
        RestKept(g, cap, iteration, n, ms, reply.value, t);
      }
    }
  }

  lemma RestKept(g: Graph, cap: int, iteration: nat, n: nat, ms: seq<Message>, reply: Reply, t: Turned)
    requires Echoes(g.handle) && g.ask(iteration, ms) == Some(reply) && reply.uses != [] && iteration + 1 < cap
    requires t == HandleAll(g.handle, n, reply.uses) && t.results.Some?
    requires var next := Exchange(ms, reply, t.results.value);
             AnswersKept(g, iteration + 1, |next|, Loop(g, cap, iteration + 1, n + |t.effects|, next))
    ensures AnswersKept(g, iteration, |ms|, Loop(g, cap, iteration, n, ms))
  {
    var next := Exchange(ms, reply, t.results.value);
    LoopContinues(g, cap, iteration, n, ms, reply, t);
    LoopExtends(g, cap, iteration + 1, n + |t.effects|, next);
    AsksOnce(g, cap, iteration + 1, n + |t.effects|, next);
    KeptOn(g, iteration, ms, reply, t, Loop(g, cap, iteration + 1, n + |t.effects|, next));
  }

  lemma KeptOn(g: Graph, iteration: nat, ms: seq<Message>, reply: Reply, t: Turned, rest: RunResult)
    requires t.results.Some? && Exchange(ms, reply, t.results.value) <= rest.messages
    requires g.ask(iteration, ms) == Some(reply) && rest.asked != []
    requires AnswersKept(g, iteration + 1, |Exchange(ms, reply, t.results.value)|, rest)
    ensures AnswersKept(g, iteration, |ms|, Continued(ms, t.effects, rest))
  {
    var r, next := Continued(ms, t.effects, rest), Exchange(ms, reply, t.results.value);
    forall k | 0 <= k < |r.asked| ensures AnswerKept(g, iteration, |ms|, r, k) {
      if k == 0 {
        assert rest.messages[|ms|] == next[|ms|] == AssistantTurn(reply);
      } else {
        assert r.asked[k] == rest.asked[k - 1];
        assert AnswerKept(g, iteration + 1, |next|, rest, k - 1);
      }
    }
  }

  /** What the model is asked and answers, over every run. */
  lemma RunKeepsAnswers(env: Env, cap: int, n: nat, initial: seq<Message>)
    ensures GraphOf(env).ask == env.gateway
    ensures AnswersKept(GraphOf(env), 0, |initial|, Loop(GraphOf(env), cap, 0, n, initial))
  {
    ToolsEcho(env);
    LoopKeeps(GraphOf(env), cap, 0, n, initial);
  }
}
