/** Conversation turns and their translation to three provider formats. */
module Wire {
  import opened Prelude
  import opened AuditClamp

  datatype Role = System | User | Assistant

  datatype ToolUse = ToolUse(id: string, name: string, input: Value)

  datatype ToolResult = ToolResult(useId: string, content: string, isError: bool)

  datatype Message = Message(role: Role, content: string, uses: seq<ToolUse>, results: seq<ToolResult>)

  // ---------------------------------------------------------------- OpenAI and Ollama

  datatype Arguments = Encoded(text: string) | Plain(input: Value)

  datatype Call = Call(id: string, name: string, arguments: Arguments)

  /** No calls stands for an entry without a `tool_calls` field. */
  datatype Entry =
    | SystemEntry(text: string)
    | UserEntry(text: string)
    | AssistantEntry(content: Option<string>, calls: seq<Call>)
    | ToolEntry(callId: string, text: string)

  datatype Dialect = OpenAI(dumps: Value -> string) | Ollama

  function CallsOf(uses: seq<ToolUse>, d: Dialect): seq<Call> {
    seq(|uses|, i requires 0 <= i < |uses| =>
      Call(uses[i].id, uses[i].name, if d.OpenAI? then Encoded(d.dumps(uses[i].input)) else Plain(uses[i].input)))
  }

  function RepliesOf(results: seq<ToolResult>): seq<Entry> {
    seq(|results|, i requires 0 <= i < |results| => ToolEntry(results[i].useId, results[i].content))
  }

  /** The entries of one turn; system turns are hoisted and leave nothing behind. */
  function EntriesOf(m: Message, d: Dialect): seq<Entry> {
    match m.role
    case System => []
    case Assistant =>
      var content := if m.content != "" then Some(m.content) else if d.OpenAI? then None else Some("");
      [AssistantEntry(content, CallsOf(m.uses, d))]
    case User =>
      if m.results == [] then [UserEntry(m.content)]
      else RepliesOf(m.results) + if m.content != "" then [UserEntry(m.content)] else []
  }

  function BodyOf(ms: seq<Message>, d: Dialect): seq<Entry> {
    if ms == [] then [] else BodyOf(ms[..|ms| - 1], d) + EntriesOf(ms[|ms| - 1], d)
  }

  function SystemParts(ms: seq<Message>, system: Option<string>): seq<string> {
    if ms == [] then (if system.Some? && system.value != "" then [system.value] else [])
    else
      SystemParts(ms[..|ms| - 1], system) + if ms[|ms| - 1].role.System? then [ms[|ms| - 1].content] else []
  }

  function Join(parts: seq<string>): string {
    if parts == [] then ""
    else if |parts| == 1 then parts[0]
    else Join(parts[..|parts| - 1]) + "\n\n" + parts[|parts| - 1]
  }

  function SystemEntries(parts: seq<string>): seq<Entry> {
    if parts == [] then [] else [SystemEntry(Join(parts))]
  }

  function ToWire(ms: seq<Message>, system: Option<string>, d: Dialect): seq<Entry> {
    SystemEntries(SystemParts(ms, system)) + BodyOf(ms, d)
  }

  lemma Hoisted(parts: seq<string>, body: seq<Entry>)
    ensures SystemEntries(parts) + body == if parts != [] then [SystemEntry(Join(parts))] + body else body
  {
  }

  lemma BodySnoc(ms: seq<Message>, i: nat, d: Dialect)
    requires i < |ms|
    ensures BodyOf(ms[..i + 1], d) == BodyOf(ms[..i], d) + EntriesOf(ms[i], d)
  {
    assert ms[..i + 1][..i] == ms[..i];
  }

  lemma PartsSnoc(ms: seq<Message>, i: nat, system: Option<string>)
    requires i < |ms|
    ensures SystemParts(ms[..i + 1], system)
         == SystemParts(ms[..i], system) + if ms[i].role.System? then [ms[i].content] else []
  {
    assert ms[..i + 1][..i] == ms[..i];
  }

  method MessagesToOpenAI(ms: seq<Message>, system: Option<string>, dumps: Value -> string) returns (out: seq<Entry>)
    ensures out == ToWire(ms, system, OpenAI(dumps))
  {
    out := [];
    var parts := if system.Some? && system.value != "" then [system.value] else [];
    for i := 0 to |ms|
      invariant out == BodyOf(ms[..i], OpenAI(dumps))
      invariant parts == SystemParts(ms[..i], system)
    {
      var m := ms[i];
      BodySnoc(ms, i, OpenAI(dumps));
      PartsSnoc(ms, i, system);
      if m.role.System? {
        parts := parts + [m.content];
        continue;
      }
      if m.role.Assistant? {
        var content := if m.content != "" then Some(m.content) else None;
        out := out + [AssistantEntry(content, CallsOf(m.uses, OpenAI(dumps)))];
        continue;
      }
      if m.results != [] {
        Regroup(out, RepliesOf(m.results), [UserEntry(m.content)]);
        out := AppendReplies(out, m.results);
        if m.content != "" { out := out + [UserEntry(m.content)]; }
        continue;
      }
      out := out + [UserEntry(m.content)];
    }
    assert ms[..|ms|] == ms;
    Hoisted(parts, out);
    if parts != [] { out := [SystemEntry(Join(parts))] + out; }
  }

  method MessagesToOllama(ms: seq<Message>, system: Option<string>) returns (out: seq<Entry>)
    ensures out == ToWire(ms, system, Ollama)
  {
    out := [];
    var parts := if system.Some? && system.value != "" then [system.value] else [];
    for i := 0 to |ms|
      invariant out == BodyOf(ms[..i], Ollama)
      invariant parts == SystemParts(ms[..i], system)
    {
      var m := ms[i];
      BodySnoc(ms, i, Ollama);
      PartsSnoc(ms, i, system);
      if m.role.System? {
        parts := parts + [m.content];
        continue;
      }
      if m.role.Assistant? {
        var content := if m.content != "" then Some(m.content) else Some("");
        out := out + [AssistantEntry(content, CallsOf(m.uses, Ollama))];
        continue;
      }
      if m.results != [] {
        Regroup(out, RepliesOf(m.results), [UserEntry(m.content)]);
        out := AppendReplies(out, m.results);
        if m.content != "" { out := out + [UserEntry(m.content)]; }
        continue;
      }
      out := out + [UserEntry(m.content)];
    }
    assert ms[..|ms|] == ms;
    Hoisted(parts, out);
    if parts != [] { out := [SystemEntry(Join(parts))] + out; }
  }

  method AppendReplies(out: seq<Entry>, results: seq<ToolResult>) returns (out': seq<Entry>)
    ensures out' == out + RepliesOf(results)
  {
    out' := out;
    for j := 0 to |results|
      invariant out' == out + RepliesOf(results)[..j]
    {
      out' := out' + [ToolEntry(results[j].useId, results[j].content)];
    }
  }

  // ---------------------------------------------------------------- what a provider accepts

  function CallIds(calls: seq<Call>): seq<string> {
    seq(|calls|, i requires 0 <= i < |calls| => calls[i].id)
  }

  function UseIds(uses: seq<ToolUse>): seq<string> {
    seq(|uses|, i requires 0 <= i < |uses| => uses[i].id)
  }

  function ResultIds(results: seq<ToolResult>): seq<string> {
    seq(|results|, i requires 0 <= i < |results| => results[i].useId)
  }

  predicate IsReply(e: Entry, id: string) {
    e.ToolEntry? && e.callId == id
  }

  /** Call `j` of entry `a` has its reply `j` places behind the entry. */
  predicate CallAnswered(es: seq<Entry>, a: nat, j: nat)
    requires a + 1 + j < |es| && es[a].AssistantEntry? && j < |es[a].calls|
  {
    IsReply(es[a + 1 + j], es[a].calls[j].id)
  }

  /** The calls of entry `a` are answered right behind it, one by one and in order. */
  predicate Answered(es: seq<Entry>, a: nat)
    requires a < |es|
  {
    es[a].AssistantEntry? ==>
      && a + |es[a].calls| < |es|
      && forall j :: 0 <= j < |es[a].calls| ==> CallAnswered(es, a, j)
  }

  /** Position `k` is one of the reply places behind entry `a`. */
  predicate Owns(es: seq<Entry>, a: nat, k: nat) {
    a < k < |es| && es[a].AssistantEntry? && k - a <= |es[a].calls|
  }

  ghost predicate Owned(es: seq<Entry>, k: nat) {
    exists a: nat :: Owns(es, a, k)
  }

  /** Every call is answered right behind its entry, nothing else is a reply, and a system entry can
      only come first. */
  ghost predicate WellFormed(es: seq<Entry>) {
    && (forall a :: 0 <= a < |es| ==> Answered(es, a))
    && (forall k :: 0 <= k < |es| && es[k].ToolEntry? ==> Owned(es, k))
    && (forall k :: 0 < k < |es| ==> !es[k].SystemEntry?)
  }

  /** The same as a left-to-right check: `pending` are the ids still to be answered. */
  function Scan(pending: seq<string>, es: seq<Entry>): Option<seq<string>>
    decreases |es|
  {
    if es == [] then Some(pending)
    else
      match es[0]
      case SystemEntry(_) => None
      case UserEntry(_) => if pending == [] then Scan([], es[1..]) else None
      case AssistantEntry(_, calls) => if pending == [] then Scan(CallIds(calls), es[1..]) else None
      case ToolEntry(id, _) => if pending != [] && pending[0] == id then Scan(pending[1..], es[1..]) else None
  }

  /** `pending` is answered first, and then every later call is. */
  ghost predicate Settles(pending: seq<string>, es: seq<Entry>) {
    && |pending| <= |es|
    && (forall j :: 0 <= j < |pending| ==> IsReply(es[j], pending[j]))
    && (forall a :: 0 <= a < |es| ==> Answered(es, a))
    && (forall k :: |pending| <= k < |es| && es[k].ToolEntry? ==> Owned(es, k))
    && (forall k :: 0 <= k < |es| ==> !es[k].SystemEntry?)
  }

  lemma Shift(e: Entry, es: seq<Entry>, k: nat)
    requires k < |es|
    ensures ([e] + es)[k + 1] == es[k]
    ensures Answered([e] + es, k + 1) <==> Answered(es, k)
    ensures Owned([e] + es, k + 1) <==> Owned(es, k) || Owns([e] + es, 0, k + 1)
  {
    var all, up := [e] + es, k + 1;
    if Answered(all, up) { AnsweredDown(e, es, k, up); }
    if Answered(es, k) { AnsweredUp(e, es, k, up); }
    if a: nat :| Owns(es, a, k) { assert Owns(all, a + 1, up); }
    if a: nat :| Owns(all, a, up) {
      if a > 0 { assert Owns(es, a - 1, k); }
    }
  }

  lemma AnsweredUp(e: Entry, es: seq<Entry>, k: nat, up: nat)
    requires k < |es| && up == k + 1 && Answered(es, k)
    ensures Answered([e] + es, up)
  {
    var all := [e] + es;
    if es[k].AssistantEntry? {
      forall j | 0 <= j < |all[up].calls| ensures CallAnswered(all, up, j) {
        assert CallAnswered(es, k, j);
        assert all[up + 1 + j] == es[k + 1 + j];
      }
    }
  }

  lemma AnsweredDown(e: Entry, es: seq<Entry>, k: nat, up: nat)
    requires k < |es| && up == k + 1 && Answered([e] + es, up)
    ensures Answered(es, k)
  {
    var all := [e] + es;
    assert all[up] == es[k];
    if es[k].AssistantEntry? {
      forall j | 0 <= j < |es[k].calls| ensures CallAnswered(es, k, j) {
        assert CallAnswered(all, up, j);
        assert all[up + 1 + j] == es[k + 1 + j];
      }
    }
  }

  lemma SettlesTail(pending: seq<string>, e: Entry, es: seq<Entry>, rest: seq<string>)
    requires Settles(pending, [e] + es)
    requires rest == if e.AssistantEntry? then CallIds(e.calls) else if pending == [] then [] else pending[1..]
    requires e.AssistantEntry? || e.UserEntry? ==> pending == []
    requires e.ToolEntry? ==> pending != []
    ensures Settles(rest, es)
  {
    var all := [e] + es;
    assert all[0] == e && Answered(all, 0);
    assert |rest| <= |es|;
    forall j | 0 <= j < |rest| ensures IsReply(es[j], rest[j]) {
      assert all[j + 1] == es[j];
      if e.AssistantEntry? { assert CallAnswered(all, 0, j); }
      else { assert rest[j] == pending[j + 1] && IsReply(all[j + 1], pending[j + 1]); }
    }
    forall a | 0 <= a < |es| ensures Answered(es, a) {
      Shift(e, es, a);
      assert Answered(all, a + 1);
    }
    forall k | |rest| <= k < |es| && es[k].ToolEntry? ensures Owned(es, k) {
      Shift(e, es, k);
      assert Owned(all, k + 1);
    }
    forall k | 0 <= k < |es| ensures !es[k].SystemEntry? { assert all[k + 1] == es[k]; }
  }

  lemma SettlesCons(pending: seq<string>, e: Entry, es: seq<Entry>, rest: seq<string>)
    requires Settles(rest, es) && !e.SystemEntry?
    requires e.AssistantEntry? ==> pending == [] && rest == CallIds(e.calls)
    requires e.UserEntry? ==> pending == [] && rest == []
    requires e.ToolEntry? ==> pending == [e.callId] + rest
    ensures Settles(pending, [e] + es)
  {
    var all := [e] + es;
    forall j | 0 <= j < |pending| ensures IsReply(all[j], pending[j]) {
      if j > 0 { assert all[j] == es[j - 1] && pending[j] == rest[j - 1] && IsReply(es[j - 1], rest[j - 1]); }
    }
    forall a | 0 <= a < |all| ensures Answered(all, a) {
      if a > 0 {
        Shift(e, es, a - 1);
      } else if e.AssistantEntry? {
        forall j | 0 <= j < |e.calls| ensures CallAnswered(all, 0, j) {
          assert all[0 + 1 + j] == es[j] && rest[j] == e.calls[j].id && IsReply(es[j], rest[j]);
        }
      }
    }
    forall k | |pending| <= k < |all| && all[k].ToolEntry? ensures Owned(all, k) {
      assert k > 0;
      Shift(e, es, k - 1);
      if k - 1 < |rest| { assert Owns(all, 0, k); }
    }
    forall k | 0 <= k < |all| ensures !all[k].SystemEntry? { if k > 0 { assert all[k] == es[k - 1]; } }
  }

  /** The scan accepts exactly the entry lists in which every call is settled. */
  lemma {:induction false} ScanIsSettles(pending: seq<string>, es: seq<Entry>)
    ensures Scan(pending, es) == Some([]) <==> Settles(pending, es)
    decreases |es|
  {
    if es == [] { return; }
    var e, tail := es[0], es[1..];
    assert es == [e] + tail;
    match e
    case SystemEntry(_) =>
    case UserEntry(_) =>
      ScanIsSettles([], tail);
      if Settles(pending, es) && pending == [] { SettlesTail(pending, e, tail, []); }
      if pending == [] && Settles([], tail) { SettlesCons([], e, tail, []); }
    case AssistantEntry(_, calls) =>
      ScanIsSettles(CallIds(calls), tail);
      if Settles(pending, es) && pending == [] { SettlesTail(pending, e, tail, CallIds(calls)); }
      if pending == [] && Settles(CallIds(calls), tail) { SettlesCons([], e, tail, CallIds(calls)); }
    case ToolEntry(id, _) =>
      if pending != [] {
        ScanIsSettles(pending[1..], tail);
        assert pending == [pending[0]] + pending[1..];
        if Settles(pending, es) { SettlesTail(pending, e, tail, pending[1..]); }
        if pending[0] == id && Settles(pending[1..], tail) { SettlesCons(pending, e, tail, pending[1..]); }
      } else {
        assert !Owned(es, 0);
      }
  }

  // ---------------------------------------------------------------- paired conversations

  /** The check a caller can run on the conversation itself. */
  function Pair(pending: seq<string>, ms: seq<Message>): Option<seq<string>> {
    if ms == [] then Some(pending)
    else
      var before := Pair(pending, ms[..|ms| - 1]);
      if before.None? then None else PairOne(before.value, ms[|ms| - 1])
  }

  function PairOne(pending: seq<string>, m: Message): Option<seq<string>> {
    match m.role
    case System => Some(pending)
    case Assistant => if pending == [] then Some(UseIds(m.uses)) else None
    case User =>
      if !(ResultIds(m.results) <= pending) then None
      else
        var rest := pending[|m.results|..];
        if (m.results == [] || m.content != "") && rest != [] then None else Some(rest)
  }

  ghost predicate Paired(ms: seq<Message>) {
    Pair([], ms) == Some([])
  }

  lemma {:induction false} ScanConcat(pending: seq<string>, xs: seq<Entry>, ys: seq<Entry>)
    ensures Scan(pending, xs + ys)
         == if Scan(pending, xs).None? then None else Scan(Scan(pending, xs).value, ys)
    decreases |xs|
  {
    if xs == [] {
      assert xs + ys == ys;
    } else {
      assert (xs + ys)[1..] == xs[1..] + ys;
      match xs[0]
      case SystemEntry(_) =>
      case UserEntry(_) => ScanConcat([], xs[1..], ys);
      case AssistantEntry(_, calls) => ScanConcat(CallIds(calls), xs[1..], ys);
      case ToolEntry(_, _) => if pending != [] { ScanConcat(pending[1..], xs[1..], ys); }
  }
  }

  lemma {:induction false} ScanReplies(pending: seq<string>, results: seq<ToolResult>)
    ensures Scan(pending, RepliesOf(results))
         == if ResultIds(results) <= pending then Some(pending[|results|..]) else None
    decreases |results|
  {
    var ids := ResultIds(results);
    if results != [] {
      assert RepliesOf(results)[1..] == RepliesOf(results[1..]);
      assert ids == [results[0].useId] + ResultIds(results[1..]);
      if pending != [] {
        ScanReplies(pending[1..], results[1..]);
        assert pending == [pending[0]] + pending[1..];
        if pending[0] == results[0].useId {
          assert ids <= pending <==> ResultIds(results[1..]) <= pending[1..];
          if ids <= pending { assert pending[1..][|results| - 1..] == pending[|results|..]; }
        }
      }
    }
  }

  lemma ScanOne(pending: seq<string>, m: Message, d: Dialect)
    ensures Scan(pending, EntriesOf(m, d)) == PairOne(pending, m)
  {
    var es := EntriesOf(m, d);
    match m.role
    case System =>
    case Assistant =>
      assert CallIds(CallsOf(m.uses, d)) == UseIds(m.uses);
      assert es[1..] == [];
    case User =>
      if m.results == [] {
        assert es[1..] == [];
        assert pending[0..] == pending;
      } else {
        ScanReplies(pending, m.results);
        if m.content != "" {
          ScanConcat(pending, RepliesOf(m.results), [UserEntry(m.content)]);
          assert [UserEntry(m.content)][1..] == [];
        } else {
          assert RepliesOf(m.results) + [] == RepliesOf(m.results);
        }
      }
  }

  lemma {:induction false} ScanBody(pending: seq<string>, ms: seq<Message>, d: Dialect)
    ensures Scan(pending, BodyOf(ms, d)) == Pair(pending, ms)
  {
    if ms != [] {
      var n := |ms| - 1;
      ScanBody(pending, ms[..n], d);
      ScanConcat(pending, BodyOf(ms[..n], d), EntriesOf(ms[n], d));
      if Pair(pending, ms[..n]).Some? { ScanOne(Pair(pending, ms[..n]).value, ms[n], d); }
    }
  }

  /** In either dialect the translation is well formed exactly when the conversation is paired. */
  lemma WireIffPaired(ms: seq<Message>, system: Option<string>, d: Dialect)
    ensures WellFormed(ToWire(ms, system, d)) <==> Paired(ms)
  {
    var head, body := SystemEntries(SystemParts(ms, system)), BodyOf(ms, d);
    assert Settles([], body) <==> Paired(ms) by {
      ScanBody([], ms, d);
      ScanIsSettles([], body);
    }
    BodyHasNoSystem(ms, d);
    if head == [] {
      assert head + body == body;
    } else {
      assert head == [head[0]];
      LeadingSystem(head[0], body);
    }
  }

  lemma LeadingSystem(e: Entry, body: seq<Entry>)
    requires e.SystemEntry? && forall k :: 0 <= k < |body| ==> !body[k].SystemEntry?
    ensures WellFormed([e] + body) <==> Settles([], body)
  {
    var all := [e] + body;
    if Settles([], body) {
      forall a | 0 <= a < |all| ensures Answered(all, a) { if a > 0 { Shift(e, body, a - 1); } }
      forall k | 0 <= k < |all| && all[k].ToolEntry? ensures Owned(all, k) { Shift(e, body, k - 1); }
    }
    if WellFormed(all) {
      forall a | 0 <= a < |body| ensures Answered(body, a) { Shift(e, body, a); assert Answered(all, a + 1); }
      forall k | 0 <= k < |body| && body[k].ToolEntry? ensures Owned(body, k) {
        Shift(e, body, k);
        assert Owned(all, k + 1);
      }
    }
  }

  lemma {:induction false} BodyHasNoSystem(ms: seq<Message>, d: Dialect)
    ensures forall k :: 0 <= k < |BodyOf(ms, d)| ==> !BodyOf(ms, d)[k].SystemEntry?
  {
    if ms != [] { BodyHasNoSystem(ms[..|ms| - 1], d); }
  }

  /** The system text leads, exactly once, whenever there is any. */
  lemma SystemLeads(ms: seq<Message>, system: Option<string>, d: Dialect)
    ensures var es, parts := ToWire(ms, system, d), SystemParts(ms, system);
            && (parts != [] ==> es != [] && es[0] == SystemEntry(Join(parts)))
            && (forall k :: 0 <= k < |es| && es[k].SystemEntry? ==> k == 0 && parts != [])
  {
    BodyHasNoSystem(ms, d);
  }

  // ---------------------------------------------------------------- the dialects agree

  /** An Ollama entry rewritten the OpenAI way: arguments as text, empty content as null. */
  function Reencode(e: Entry, dumps: Value -> string): Entry {
    match e
    case AssistantEntry(content, calls) =>
      AssistantEntry(if content == Some("") then None else content,
                     seq(|calls|, i requires 0 <= i < |calls| =>
                       if calls[i].arguments.Plain?
                       then calls[i].(arguments := Encoded(dumps(calls[i].arguments.input)))
                       else calls[i]))
    case _ => e
  }

  function ReencodeAll(es: seq<Entry>, dumps: Value -> string): seq<Entry> {
    seq(|es|, i requires 0 <= i < |es| => Reencode(es[i], dumps))
  }

  lemma ReencodeOne(m: Message, dumps: Value -> string)
    ensures ReencodeAll(EntriesOf(m, Ollama), dumps) == EntriesOf(m, OpenAI(dumps))
  {
    if m.role.Assistant? {
      var a, b := EntriesOf(m, Ollama)[0], EntriesOf(m, OpenAI(dumps))[0];
      assert Reencode(a, dumps).calls == b.calls;
    }
  }

  lemma ReencodeConcat(x: seq<Entry>, y: seq<Entry>, dumps: Value -> string)
    ensures ReencodeAll(x + y, dumps) == ReencodeAll(x, dumps) + ReencodeAll(y, dumps)
  {
  }

  lemma {:induction false} BodiesAgree(ms: seq<Message>, dumps: Value -> string)
    ensures ReencodeAll(BodyOf(ms, Ollama), dumps) == BodyOf(ms, OpenAI(dumps))
  {
    if ms != [] {
      var front, m := ms[..|ms| - 1], ms[|ms| - 1];
      BodiesAgree(front, dumps);
      ReencodeOne(m, dumps);
      ReencodeConcat(BodyOf(front, Ollama), EntriesOf(m, Ollama), dumps);
    }
  }

  /** The two translations differ only in how arguments and empty content are written. */
  lemma DialectsAgree(ms: seq<Message>, system: Option<string>, dumps: Value -> string)
    ensures ReencodeAll(ToWire(ms, system, Ollama), dumps) == ToWire(ms, system, OpenAI(dumps))
  {
    BodiesAgree(ms, dumps);
    var head := SystemEntries(SystemParts(ms, system));
    ReencodeConcat(head, BodyOf(ms, Ollama), dumps);
    assert ReencodeAll(head, dumps) == head;
  }

  // ---------------------------------------------------------------- Anthropic

  datatype Block =
    | TextBlock(text: string)
    | UseBlock(id: string, name: string, input: Value)
    | ResultBlock(useId: string, content: string, isError: bool)

  datatype Content = Text(text: string) | Blocks(blocks: seq<Block>)

  datatype Turn = Turn(user: bool, content: Content)

  function UseBlocks(uses: seq<ToolUse>): seq<Block> {
    seq(|uses|, i requires 0 <= i < |uses| => UseBlock(uses[i].id, uses[i].name, uses[i].input))
  }

  function ResultBlocks(results: seq<ToolResult>): seq<Block> {
    seq(|results|, i requires 0 <= i < |results| =>
      ResultBlock(results[i].useId, results[i].content, results[i].isError))
  }

  function TextBlocks(s: string): seq<Block> {
    if s != "" then [TextBlock(s)] else []
  }

  function ToTurn(m: Message): Turn {
    if m.role.Assistant? then
      Turn(false, if m.uses == [] then Text(m.content) else Blocks(TextBlocks(m.content) + UseBlocks(m.uses)))
    else
      Turn(true, if m.results == [] then Text(m.content) else Blocks(TextBlocks(m.content) + ResultBlocks(m.results)))
  }

  method MessageToAnthropic(m: Message) returns (t: Turn)
    ensures t == ToTurn(m)
  {
    if m.role.Assistant? {
      if m.uses == [] { return Turn(false, Text(m.content)); }
      var blocks: seq<Block> := [];
      if m.content != "" { blocks := blocks + [TextBlock(m.content)]; }
      for i := 0 to |m.uses|
        invariant blocks == TextBlocks(m.content) + UseBlocks(m.uses)[..i]
      {
        blocks := blocks + [UseBlock(m.uses[i].id, m.uses[i].name, m.uses[i].input)];
      }
      assert UseBlocks(m.uses)[..|m.uses|] == UseBlocks(m.uses);
      return Turn(false, Blocks(blocks));
    }
    if m.results != [] {
      var blocks := ResultBlocks(m.results);
      if m.content != "" { blocks := [TextBlock(m.content)] + blocks; }
      assert blocks == TextBlocks(m.content) + ResultBlocks(m.results);
      return Turn(true, Blocks(blocks));
    }
    t := Turn(true, Text(m.content));
  }

  function Turns(ms: seq<Message>): seq<Turn> {
    if ms == [] then []
    else Turns(ms[..|ms| - 1]) + if ms[|ms| - 1].role.System? then [] else [ToTurn(ms[|ms| - 1])]
  }

  /** The loop that hoists system turns and translates the others. */
  method Complete(ms: seq<Message>, system: Option<string>) returns (systemArg: Option<string>, chat: seq<Turn>)
    ensures chat == Turns(ms)
    ensures systemArg == Leading(ToWire(ms, system, Ollama))
  {
    chat := [];
    var parts := if system.Some? && system.value != "" then [system.value] else [];
    for i := 0 to |ms|
      invariant chat == Turns(ms[..i]) && parts == SystemParts(ms[..i], system)
    {
      assert ms[..i + 1][..i] == ms[..i];
      if ms[i].role.System? {
        parts := parts + [ms[i].content];
        continue;
      }
      var t := MessageToAnthropic(ms[i]);
      chat := chat + [t];
    }
    assert ms[..|ms|] == ms;
    systemArg := if parts == [] then None else Some(Join(parts));
    LeadingIs(ms, system, Ollama);
  }

  // ---------------------------------------------------------------- the system text

  /** The text of a leading system entry, if there is one. */
  function Leading(es: seq<Entry>): Option<string> {
    if es != [] && es[0].SystemEntry? then Some(es[0].text) else None
  }

  lemma LeadingIs(ms: seq<Message>, system: Option<string>, d: Dialect)
    ensures var parts := SystemParts(ms, system);
            Leading(ToWire(ms, system, d)) == if parts == [] then None else Some(Join(parts))
  {
    BodyHasNoSystem(ms, d);
  }

  /** An empty conversation starts with the prompt, unless that is empty or absent. */
  lemma PromptLeads(system: Option<string>, d: Dialect)
    ensures Leading(ToWire([], system, d)) == if system in {None, Some("")} then None else system
  {
    LeadingIs([], system, d);
  }

  /** One more turn: a system turn adds its content to the leading text, behind a blank line if there is
      one already; any other turn leaves the text alone. */
  lemma TurnLeads(ms: seq<Message>, m: Message, system: Option<string>, d: Dialect)
    ensures var before, after := Leading(ToWire(ms, system, d)), Leading(ToWire(ms + [m], system, d));
            after == if !m.role.System? then before
                     else if before == None then Some(m.content)
                     else Some(before.value + "\n\n" + m.content)
  {
    LeadingIs(ms, system, d);
    LeadingIs(ms + [m], system, d);
    assert (ms + [m])[..|ms|] == ms && (ms + [m])[|ms|] == m;
    var parts := SystemParts(ms, system);
    if m.role.System? {
      assert SystemParts(ms + [m], system) == parts + [m.content];
      assert (parts + [m.content])[..|parts|] == parts;
    } else {
      assert SystemParts(ms + [m], system) == parts + [] == parts;
    }
  }

  ghost predicate HasSystemTurn(ms: seq<Message>) {
    exists m :: m in ms && m.role.System?
  }

  /** There is a leading text exactly when the prompt is not empty or there is a system turn; without
      system turns it is the prompt itself. */
  lemma {:induction false} LeadingIff(ms: seq<Message>, system: Option<string>, d: Dialect)
    ensures Leading(ToWire(ms, system, d)).Some? <==> system !in {None, Some("")} || HasSystemTurn(ms)
    ensures !HasSystemTurn(ms) && system !in {None, Some("")} ==> Leading(ToWire(ms, system, d)) == system
  {
    if ms == [] {
      PromptLeads(system, d);
    } else {
      var front, last := ms[..|ms| - 1], ms[|ms| - 1];
      assert ms == front + [last];
      LeadingIff(front, system, d);
      TurnLeads(front, last, system, d);
    }
  }

  // ---------------------------------------------------------------- what is said

  /** What a conversation says, whatever the format. */
  datatype Atom =
    | Said(user: bool, text: string)
    | Called(id: string, name: string, input: Value)
    | Returned(id: string, content: string)

  function SaidAtoms(user: bool, s: string): seq<Atom> {
    if s == "" then [] else [Said(user, s)]
  }

  function EntryAtoms(e: Entry): seq<Atom> {
    match e
    case SystemEntry(_) => []
    case UserEntry(s) => SaidAtoms(true, s)
    case AssistantEntry(c, calls) =>
      SaidAtoms(false, if c.Some? then c.value else "")
      + seq(|calls|, i requires 0 <= i < |calls| =>
          Called(calls[i].id, calls[i].name,
                 if calls[i].arguments.Plain? then calls[i].arguments.input else Scalar(Null)))
    case ToolEntry(id, s) => [Returned(id, s)]
  }

  function PerEntry(es: seq<Entry>): seq<seq<Atom>> {
    seq(|es|, i requires 0 <= i < |es| => EntryAtoms(es[i]))
  }

  function WireAtoms(es: seq<Entry>): seq<Atom> {
    Flat(PerEntry(es))
  }

  function BlockAtoms(user: bool, b: Block): seq<Atom> {
    match b
    case TextBlock(s) => SaidAtoms(user, s)
    case UseBlock(id, name, input) => [Called(id, name, input)]
    case ResultBlock(id, s, _) => [Returned(id, s)]
  }

  function BlocksAtoms(user: bool, bs: seq<Block>): seq<Atom> {
    Flat(seq(|bs|, i requires 0 <= i < |bs| => BlockAtoms(user, bs[i])))
  }

  function TurnAtoms(t: Turn): seq<Atom> {
    match t.content
    case Text(s) => SaidAtoms(t.user, s)
    case Blocks(bs) => BlocksAtoms(t.user, bs)
  }

  /** The same turn with a user's own words after the tool results instead of before. */
  function WordsLast(t: Turn): Turn {
    if t.user && t.content.Blocks? && t.content.blocks != [] && t.content.blocks[0].TextBlock?
    then t.(content := Blocks(t.content.blocks[1..] + [t.content.blocks[0]]))
    else t
  }

  /** The fine print the atoms leave out: how an empty assistant text is written in each dialect, and that
      Anthropic's result blocks carry the error flags, in order, behind at most one text block. */
  lemma FinePrint(m: Message, dumps: Value -> string)
    ensures m.role.Assistant? && m.content == "" ==>
              EntriesOf(m, OpenAI(dumps))[0].content == None && EntriesOf(m, Ollama)[0].content == Some("")
    ensures m.role.User? && m.results != [] ==>
              var c := ToTurn(m).content; var skip := if m.content == "" then 0 else 1;
              && c.Blocks? && |c.blocks| == skip + |m.results|
              && forall i :: 0 <= i < |m.results| ==>
                   c.blocks[skip + i] == ResultBlock(m.results[i].useId, m.results[i].content, m.results[i].isError)
  {
  }

  function TurnsAtoms(ts: seq<Turn>): seq<Atom> {
    Flat(seq(|ts|, i requires 0 <= i < |ts| => TurnAtoms(WordsLast(ts[i]))))
  }

  lemma BlocksAtomsConcat(user: bool, xs: seq<Block>, ys: seq<Block>)
    ensures BlocksAtoms(user, xs + ys) == BlocksAtoms(user, xs) + BlocksAtoms(user, ys)
  {
    var px := seq(|xs|, i requires 0 <= i < |xs| => BlockAtoms(user, xs[i]));
    var py := seq(|ys|, i requires 0 <= i < |ys| => BlockAtoms(user, ys[i]));
    FlatConcat(px, py);
    assert seq(|xs + ys|, i requires 0 <= i < |xs + ys| => BlockAtoms(user, (xs + ys)[i])) == px + py;
  }

  lemma WireAtomsConcat(xs: seq<Entry>, ys: seq<Entry>)
    ensures WireAtoms(xs + ys) == WireAtoms(xs) + WireAtoms(ys)
  {
    FlatConcat(PerEntry(xs), PerEntry(ys));
    PerEntryConcat(xs, ys);
  }

  lemma PerEntryConcat(xs: seq<Entry>, ys: seq<Entry>)
    ensures PerEntry(xs + ys) == PerEntry(xs) + PerEntry(ys)
  {
  }

  function CalledAtoms(uses: seq<ToolUse>): seq<Atom> {
    seq(|uses|, i requires 0 <= i < |uses| => Called(uses[i].id, uses[i].name, uses[i].input))
  }

  function ReturnedAtoms(results: seq<ToolResult>): seq<Atom> {
    seq(|results|, i requires 0 <= i < |results| => Returned(results[i].useId, results[i].content))
  }

  lemma OneBlock(user: bool, b: Block)
    ensures BlocksAtoms(user, [b]) == BlockAtoms(user, b)
  {
    FlatOne(BlockAtoms(user, b));
    assert seq(|[b]|, i requires 0 <= i < |[b]| => BlockAtoms(user, [b][i])) == [BlockAtoms(user, b)];
  }

  lemma OneEntry(e: Entry)
    ensures WireAtoms([e]) == EntryAtoms(e)
  {
    FlatOne(EntryAtoms(e));
    assert PerEntry([e]) == [EntryAtoms(e)];
  }

  lemma FlatOne(s: seq<Atom>)
    ensures Flat([s]) == s
  {
    assert [s][..0] == [];
    assert Flat<Atom>([]) + s == s;
  }

  function Singles(atoms: seq<Atom>): seq<seq<Atom>> {
    seq(|atoms|, i requires 0 <= i < |atoms| => [atoms[i]])
  }

  lemma {:induction false} FlatSingles(atoms: seq<Atom>)
    ensures Flat(Singles(atoms)) == atoms
  {
    if atoms != [] {
      var front, last := atoms[..|atoms| - 1], atoms[|atoms| - 1];
      FlatSingles(front);
      FlatSnoc(Singles(front), [last]);
      assert Singles(atoms) == Singles(front) + [[last]];
      assert atoms == front + [last];
    }
  }

  lemma UsesSay(uses: seq<ToolUse>)
    ensures BlocksAtoms(false, UseBlocks(uses)) == CalledAtoms(uses)
  {
    var bs := UseBlocks(uses);
    FlatSingles(CalledAtoms(uses));
    assert seq(|bs|, i requires 0 <= i < |bs| => BlockAtoms(false, bs[i])) == Singles(CalledAtoms(uses));
  }

  lemma ResultBlocksSay(results: seq<ToolResult>)
    ensures BlocksAtoms(true, ResultBlocks(results)) == ReturnedAtoms(results)
  {
    var bs := ResultBlocks(results);
    FlatSingles(ReturnedAtoms(results));
    assert seq(|bs|, i requires 0 <= i < |bs| => BlockAtoms(true, bs[i])) == Singles(ReturnedAtoms(results));
  }

  lemma RepliesSay(results: seq<ToolResult>)
    ensures WireAtoms(RepliesOf(results)) == ReturnedAtoms(results)
  {
    FlatSingles(ReturnedAtoms(results));
    assert PerEntry(RepliesOf(results)) == Singles(ReturnedAtoms(results));
  }

  lemma CallsSay(m: Message)
    requires m.role.Assistant?
    ensures WireAtoms(EntriesOf(m, Ollama)) == SaidAtoms(false, m.content) + CalledAtoms(m.uses)
  {
    var e := EntriesOf(m, Ollama)[0];
    OneEntry(e);
    var calls := CallsOf(m.uses, Ollama);
    assert seq(|calls|, i requires 0 <= i < |calls| =>
          Called(calls[i].id, calls[i].name,
                 if calls[i].arguments.Plain? then calls[i].arguments.input else Scalar(Null))) == CalledAtoms(m.uses);
  }

  lemma AssistantSays(m: Message)
    requires m.role.Assistant?
    ensures TurnAtoms(WordsLast(ToTurn(m))) == SaidAtoms(false, m.content) + CalledAtoms(m.uses)
  {
    if m.uses == [] {
      assert SaidAtoms(false, m.content) + CalledAtoms(m.uses) == SaidAtoms(false, m.content);
    } else {
      UsesSay(m.uses);
      BlocksAtomsConcat(false, TextBlocks(m.content), UseBlocks(m.uses));
      if m.content != "" { OneBlock(false, TextBlock(m.content)); }
    }
  }

  lemma UserSays(m: Message)
    requires m.role.User?
    ensures WireAtoms(EntriesOf(m, Ollama)) == ReturnedAtoms(m.results) + SaidAtoms(true, m.content)
  {
    OneEntry(UserEntry(m.content));
    RepliesSay(m.results);
    if m.results == [] {
      assert ReturnedAtoms(m.results) + SaidAtoms(true, m.content) == SaidAtoms(true, m.content);
    } else if m.content == "" {
      assert RepliesOf(m.results) + [] == RepliesOf(m.results);
      assert ReturnedAtoms(m.results) + SaidAtoms(true, m.content) == ReturnedAtoms(m.results);
    } else {
      WireAtomsConcat(RepliesOf(m.results), [UserEntry(m.content)]);
    }
  }

  lemma UserTurnSays(m: Message)
    requires m.role.User?
    ensures TurnAtoms(WordsLast(ToTurn(m))) == ReturnedAtoms(m.results) + SaidAtoms(true, m.content)
  {
    if m.results == [] {
      assert ReturnedAtoms(m.results) + SaidAtoms(true, m.content) == SaidAtoms(true, m.content);
    } else if m.content == "" {
      ResultBlocksSay(m.results);
      assert [] + ResultBlocks(m.results) == ResultBlocks(m.results);
      assert ReturnedAtoms(m.results) + SaidAtoms(true, m.content) == ReturnedAtoms(m.results);
    } else {
      WordsMoved(m.content, m.results);
    }
  }

  lemma WordsMoved(s: string, results: seq<ToolResult>)
    requires s != ""
    ensures TurnAtoms(WordsLast(Turn(true, Blocks([TextBlock(s)] + ResultBlocks(results)))))
         == ReturnedAtoms(results) + SaidAtoms(true, s)
  {
    var said, rest := TextBlock(s), ResultBlocks(results);
    assert ([said] + rest)[1..] == rest;
    ResultBlocksSay(results);
    OneBlock(true, said);
    BlocksAtomsConcat(true, rest, [said]);
  }

  /** Anthropic is told the same things in the same order, except that inside a user turn the words
      come before the tool results. */
  lemma {:induction false} AnthropicSaysTheSame(ms: seq<Message>)
    ensures WireAtoms(BodyOf(ms, Ollama)) == TurnsAtoms(Turns(ms))
  {
    if ms != [] {
      var front, m := ms[..|ms| - 1], ms[|ms| - 1];
      AnthropicSaysTheSame(front);
      WireAtomsConcat(BodyOf(front, Ollama), EntriesOf(m, Ollama));
      match m.role
      case System =>
        assert BodyOf(front, Ollama) + [] == BodyOf(front, Ollama);
        assert Turns(front) + [] == Turns(front);
      case Assistant => CallsSay(m); AssistantSays(m); TurnsAtomsSnoc(Turns(front), ToTurn(m));
      case User => UserSays(m); UserTurnSays(m); TurnsAtomsSnoc(Turns(front), ToTurn(m));
    }
  }

  lemma TurnsAtomsSnoc(ts: seq<Turn>, t: Turn)
    ensures TurnsAtoms(ts + [t]) == TurnsAtoms(ts) + TurnAtoms(WordsLast(t))
  {
    var before := seq(|ts|, i requires 0 <= i < |ts| => TurnAtoms(WordsLast(ts[i])));
    FlatSnoc(before, TurnAtoms(WordsLast(t)));
    assert seq(|ts + [t]|, i requires 0 <= i < |ts + [t]| => TurnAtoms(WordsLast((ts + [t])[i])))
        == before + [TurnAtoms(WordsLast(t))];
  }
}
