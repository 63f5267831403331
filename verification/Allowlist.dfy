/** The allow-list policy: rules grouped by id, against a linear scan of the rule file. */
module Allowlist {
  import opened Prelude
  import opened AuditClamp

  datatype ServiceCall = ServiceCall(domain: string, service: string, target: Option<seq<Entry>>,
                                     data: Option<seq<Entry>>)

  /** What the policy is asked about. */
  datatype Asked = Service(call: ServiceCall) | Tool(name: string, input: Value)

  /** Why a decision was taken; the wording is left to a formatter. */
  datatype Why = NotListed | Permissive | NeedsEntities | Covered | NotCovered | InputMatches | InputRefused

  datatype Decision = Decision(allowed: bool, reason: string, rule: Option<string>)

  type Wording = (Why, Asked) -> string

  datatype Target = Target(entityIds: Option<seq<string>>)

  datatype ServiceRule = ServiceRule(service: string, target: Option<Target>)

  datatype ToolRule = ToolRule(tool: string, input: seq<Entry>)

  predicate IsPermissive(r: ServiceRule) {
    r.target.None? || r.target.value.entityIds.None?
  }

  function ServiceId(call: ServiceCall): string {
    call.domain + "." + call.service
  }

  function Strings(xs: seq<Value>): seq<string> {
    if xs == [] then [] else Strings(xs[..|xs| - 1]) + if xs[|xs| - 1].Str? then [xs[|xs| - 1].s] else []
  }

  /** The call's entity ids as a list; anything but a string or a list counts as none given. */
  function EntityIds(call: ServiceCall): Option<seq<string>> {
    if call.target.None? then None
    else
      match Get(call.target.value, "entity_id")
      case Some(Str(s)) => Some([s])
      case Some(List(xs)) => Some(Strings(xs))
      case _ => None
  }

  predicate Covers(r: ServiceRule, ids: seq<string>) {
    r.target.Some? && r.target.value.entityIds.Some? && forall e :: e in ids ==> e in r.target.value.entityIds.value
  }

  /** One rule of the file on its own. */
  predicate Permits(r: ServiceRule, call: ServiceCall) {
    && r.service == ServiceId(call)
    && (IsPermissive(r) || (EntityIds(call).Some? && Covers(r, EntityIds(call).value)))
  }

  // ---------------------------------------------------------------- tool inputs

  predicate Truthy(v: Value) {
    match v
    case Str(s) => s != ""
    case Scalar(Null) => false
    case Scalar(Flag(b)) => b
    case Scalar(Number(x)) => x != 0.0
    case Dict(es) => es != []
    case List(xs) => xs != []
    case Tuple(xs) => xs != []
  }

  predicate Substring(s: string, t: string) {
    exists i :: 0 <= i <= |t| && s <= t[i..]
  }

  /** `requested in allow`; `None` is a TypeError. */
  function Member(requested: Value, allow: Value): Option<bool> {
    match allow
    case List(xs) => Some(requested in xs)
    case Tuple(xs) => Some(requested in xs)
    case Str(t) => if requested.Str? then Some(Substring(requested.s, t)) else None
    case Dict(es) =>
      if requested.Str? then Some(Get(es, requested.s).Some?)
      else if requested.Scalar? || requested.Tuple? then Some(false)
      else None
    case Scalar(_) => None
  }

  function InputEntries(input: Value): seq<Entry> {
    if input.Dict? then input.entries else []
  }

  /** The matcher for one rule; `None` when it raises. */
  function InputFits(rule: ToolRule, input: Value): Option<bool> {
    var allow := Get(rule.input, "domain_allowlist");
    var requested := Get(InputEntries(input), "domain");
    if allow.None? || !Truthy(allow.value) then Some(true)
    else if requested.None? || requested.value == Scalar(Null) then Some(true)
    else Member(requested.value, allow.value)
  }

  // ---------------------------------------------------------------- grouping

  function ServicesFor(rules: seq<ServiceRule>, id: string): seq<ServiceRule> {
    if rules == [] then []
    else ServicesFor(rules[..|rules| - 1], id) + if rules[|rules| - 1].service == id then [rules[|rules| - 1]] else []
  }

  function ToolsFor(rules: seq<ToolRule>, id: string): seq<ToolRule> {
    if rules == [] then []
    else ToolsFor(rules[..|rules| - 1], id) + if rules[|rules| - 1].tool == id then [rules[|rules| - 1]] else []
  }

  function Listed<T>(byId: map<string, seq<T>>, id: string): seq<T> {
    if id in byId then byId[id] else []
  }

  method GroupServices(rules: seq<ServiceRule>) returns (byId: map<string, seq<ServiceRule>>)
    ensures forall id :: Listed(byId, id) == ServicesFor(rules, id)
  {
    byId := map[];
    for i := 0 to |rules|
      invariant forall id :: Listed(byId, id) == ServicesFor(rules[..i], id)
    {
      ghost var before := byId;
      byId := byId[rules[i].service := Listed(byId, rules[i].service) + [rules[i]]];
      forall id ensures Listed(byId, id) == ServicesFor(rules[..i + 1], id) {
        assert Listed(before, id) == ServicesFor(rules[..i], id);
        assert rules[..i + 1][..i] == rules[..i];
      }
    }
    assert rules[..|rules|] == rules;
  }

  method GroupTools(rules: seq<ToolRule>) returns (byId: map<string, seq<ToolRule>>)
    ensures forall id :: Listed(byId, id) == ToolsFor(rules, id)
  {
    byId := map[];
    for i := 0 to |rules|
      invariant forall id :: Listed(byId, id) == ToolsFor(rules[..i], id)
    {
      ghost var before := byId;
      byId := byId[rules[i].tool := Listed(byId, rules[i].tool) + [rules[i]]];
      forall id ensures Listed(byId, id) == ToolsFor(rules[..i + 1], id) {
        assert Listed(before, id) == ToolsFor(rules[..i], id);
        assert rules[..i + 1][..i] == rules[..i];
      }
    }
    assert rules[..|rules|] == rules;
  }

  // ---------------------------------------------------------------- the verdict, by linear scan

  ghost predicate SomePermissive(rules: seq<ServiceRule>, id: string) {
    exists r :: r in rules && r.service == id && IsPermissive(r)
  }

  ghost predicate SomePermits(rules: seq<ServiceRule>, call: ServiceCall) {
    exists r :: r in rules && Permits(r, call)
  }

  ghost predicate SomeNamed(rules: seq<ServiceRule>, id: string) {
    exists r :: r in rules && r.service == id
  }

  /** The reason a service call is allowed or denied, read off the flat rule list. */
  ghost function ServiceWhy(rules: seq<ServiceRule>, call: ServiceCall): Why {
    if !SomeNamed(rules, ServiceId(call)) then NotListed
    else if SomePermissive(rules, ServiceId(call)) then Permissive
    else if EntityIds(call).None? then NeedsEntities
    else if SomePermits(rules, call) then Covered
    else NotCovered
  }

  function Decided(why: Why, asked: Asked, id: string, say: Wording): Decision {
    var allowed := why in {Permissive, Covered, InputMatches};
    Decision(allowed, say(why, asked), if allowed then Some(id) else None)
  }

  /** The first rule of that tool, in file order, that settles the input; `None` when it raises. */
  function ToolWhy(rules: seq<ToolRule>, name: string, input: Value): Option<Why>
    decreases |rules|
  {
    if rules == [] then Some(NotListed)
    else if rules[0].tool != name then ToolWhy(rules[1..], name, input)
    else
      match InputFits(rules[0], input)
      case None => None
      case Some(true) => Some(InputMatches)
      case Some(false) =>
        var rest := ToolWhy(rules[1..], name, input);
        if rest == Some(NotListed) then Some(InputRefused) else rest
  }

  /** `evaluate`: `None` is an exception from a rule that cannot be matched. */
  ghost function Verdict(services: seq<ServiceRule>, tools: seq<ToolRule>, say: Wording,
                         asked: Asked): Option<Decision> {
    match asked
    case Service(call) => Some(Decided(ServiceWhy(services, call), asked, ServiceId(call), say))
    case Tool(name, input) =>
      var why := ToolWhy(tools, name, input);
      if why.None? then None else Some(Decided(why.value, asked, name, say))
  }

  lemma {:induction false} InServicesFor(rules: seq<ServiceRule>, id: string)
    ensures forall r :: r in ServicesFor(rules, id) <==> r in rules && r.service == id
  {
    if rules != [] { InServicesFor(rules[..|rules| - 1], id); }
  }

  class AllowlistPolicy {
    const say: Wording
    const services: seq<ServiceRule>
    const tools: seq<ToolRule>
    const servicesById: map<string, seq<ServiceRule>>
    const toolsById: map<string, seq<ToolRule>>

    ghost predicate Valid() {
      && (forall id :: Listed(servicesById, id) == ServicesFor(services, id))
      && (forall id :: Listed(toolsById, id) == ToolsFor(tools, id))
    }

    constructor (services: seq<ServiceRule>, tools: seq<ToolRule>, say: Wording)
      ensures Valid() && this.services == services && this.tools == tools && this.say == say
    {
      this.services, this.tools, this.say := services, tools, say;
      var groupedServices := GroupServices(services);
      var groupedTools := GroupTools(tools);
      servicesById, toolsById := groupedServices, groupedTools;
    }

    method Evaluate(asked: Asked) returns (d: Option<Decision>)
      requires Valid()
      ensures d == Verdict(services, tools, say, asked)
    {
      match asked
      case Service(call) => {
        var decision := EvaluateService(call);
        d := Some(decision);
      }
      case Tool(name, input) => d := EvaluateTool(name, input);
    }

    method EvaluateService(call: ServiceCall) returns (d: Decision)
      requires Valid()
      ensures d == Decided(ServiceWhy(services, call), Service(call), ServiceId(call), say)
    {
      var id := ServiceId(call);
      InServicesFor(services, id);
      var candidates := Listed(servicesById, id);
      assert candidates == ServicesFor(services, id);
      if candidates == [] {
        return Decided(NotListed, Service(call), id, say);
      }
      assert candidates[0] in services;
      var entities := EntityIds(call);
      var constrained: seq<ServiceRule> := [];
      for i := 0 to |candidates|
        invariant constrained == candidates[..i] && forall k :: 0 <= k < i ==> !IsPermissive(candidates[k])
      {
        assert candidates[i] in candidates;
        if IsPermissive(candidates[i]) {
          return Decided(Permissive, Service(call), id, say);
        }
        constrained := constrained + [candidates[i]];
      }
      assert !SomePermissive(services, id);
      if entities.None? {
        return Decided(NeedsEntities, Service(call), id, say);
      }
      for i := 0 to |constrained|
        invariant forall k :: 0 <= k < i ==> !Permits(candidates[k], call)
      {
        assert candidates[i] in candidates;
        if Covers(constrained[i], entities.value) {
          assert Permits(candidates[i], call);
          return Decided(Covered, Service(call), id, say);
        }
      }
      assert !SomePermits(services, call);
      d := Decided(NotCovered, Service(call), id, say);
    }

    method EvaluateTool(name: string, input: Value) returns (d: Option<Decision>)
      requires Valid()
      ensures d == Verdict(services, tools, say, Tool(name, input))
    {
      var candidates := Listed(toolsById, name);
      assert candidates == ToolsFor(tools, name);
      GroupedWhy(tools, name, input);
      if candidates == [] {
        return Some(Decided(NotListed, Tool(name, input), name, say));
      }
      ToolsForNamed(tools, name);
      for i := 0 to |candidates|
        invariant ToolWhy(candidates, name, input)
               == var rest := ToolWhy(candidates[i..], name, input);
                  if i > 0 && rest == Some(NotListed) then Some(InputRefused) else rest
      {
        assert candidates[i..][1..] == candidates[i + 1..];
        var fits := InputFits(candidates[i], input);
        if fits.None? { return None; }
        if fits.value { return Some(Decided(InputMatches, Tool(name, input), name, say)); }
      }
      d := Some(Decided(InputRefused, Tool(name, input), name, say));
    }
  }

  lemma {:induction false} ToolsForNamed(rules: seq<ToolRule>, name: string)
    ensures forall i :: 0 <= i < |ToolsFor(rules, name)| ==> ToolsFor(rules, name)[i].tool == name
  {
    if rules != [] { ToolsForNamed(rules[..|rules| - 1], name); }
  }

  lemma {:induction false} ToolsForCons(r: ToolRule, rest: seq<ToolRule>, name: string)
    ensures ToolsFor([r] + rest, name) == (if r.tool == name then [r] else []) + ToolsFor(rest, name)
    decreases |rest|
  {
    if rest == [] {
      assert [r] + rest == [r] && [r][..0] == [];
    } else {
      assert ([r] + rest)[..|rest|] == [r] + rest[..|rest| - 1];
      ToolsForCons(r, rest[..|rest| - 1], name);
    }
  }

  /** Scanning the group settles a tool call just as scanning the whole file does. */
  lemma {:induction false} GroupedWhy(rules: seq<ToolRule>, name: string, input: Value)
    ensures ToolWhy(ToolsFor(rules, name), name, input) == ToolWhy(rules, name, input)
    decreases |rules|
  {
    if rules != [] {
      assert rules == [rules[0]] + rules[1..];
      ToolsForCons(rules[0], rules[1..], name);
      GroupedWhy(rules[1..], name, input);
      if rules[0].tool == name {
        assert ToolsFor(rules, name)[0] == rules[0] && ToolsFor(rules, name)[1..] == ToolsFor(rules[1..], name);
      } else {
        assert ToolsFor(rules, name) == ToolsFor(rules[1..], name);
      }
    }
  }

  // ---------------------------------------------------------------- what the policy means

  function Allows(why: Why): bool {
    why in {Permissive, Covered, InputMatches}
  }

  /** A service call is allowed exactly when one rule of the flat list permits it. */
  lemma AllowedIffPermitted(rules: seq<ServiceRule>, call: ServiceCall)
    ensures Allows(ServiceWhy(rules, call)) <==> SomePermits(rules, call)
  {
    if r :| r in rules && Permits(r, call) { assert SomeNamed(rules, ServiceId(call)); }
    if r :| r in rules && r.service == ServiceId(call) && IsPermissive(r) { assert Permits(r, call); }
  }

  /** The order of the rules does not matter, not even for the reason. */
  lemma OrderIrrelevant(rules: seq<ServiceRule>, other: seq<ServiceRule>, call: ServiceCall)
    requires multiset(rules) == multiset(other)
    ensures ServiceWhy(rules, call) == ServiceWhy(other, call)
  {
    forall r ensures r in rules <==> r in other {
      assert r in rules <==> r in multiset(rules);
      assert r in other <==> r in multiset(other);
    }
  }

  /** Adding a rule anywhere never turns an allowed call into a denied one. */
  lemma AddingKeepsAllowed(before: seq<ServiceRule>, rule: ServiceRule, after: seq<ServiceRule>, call: ServiceCall)
    requires Allows(ServiceWhy(before + after, call))
    ensures Allows(ServiceWhy(before + [rule] + after, call))
  {
    AllowedIffPermitted(before + after, call);
    AllowedIffPermitted(before + [rule] + after, call);
    var r :| r in before + after && Permits(r, call);
    assert r in before + [rule] + after;
  }

  /** A call with an empty list of entity ids is covered by any rule for its service. */
  lemma EmptyListCovered(rules: seq<ServiceRule>, call: ServiceCall)
    requires EntityIds(call) == Some([])
    ensures Allows(ServiceWhy(rules, call)) <==> SomeNamed(rules, ServiceId(call))
  {
    AllowedIffPermitted(rules, call);
    if r :| r in rules && r.service == ServiceId(call) { assert Permits(r, call); }
  }

  // ---------------------------------------------------------------- the policy, read off the call and the rules

  /** What the call gives as entity ids: one string, the strings of a list, or nothing usable. */
  ghost predicate Gives(call: ServiceCall, ids: Option<set<string>>) {
    if call.target == None then ids == None
    else
      var entries := call.target.value;
      && (forall s :: Maps(entries, "entity_id", Str(s)) ==> ids == Some({s}))
      && (forall xs :: Maps(entries, "entity_id", List(xs)) ==> ids == Some(set x: Value | x in xs && x.Str? :: x.s))
      && (!(exists s :: Maps(entries, "entity_id", Str(s))) && !(exists xs :: Maps(entries, "entity_id", List(xs)))
          ==> ids == None)
  }

  lemma {:induction false} StringsAre(xs: seq<Value>)
    ensures forall s :: s in Strings(xs) <==> Str(s) in xs
  {
    if xs != [] {
      StringsAre(xs[..|xs| - 1]);
      assert xs == xs[..|xs| - 1] + [xs[|xs| - 1]];
    }
  }

  lemma EntityIdsGiven(call: ServiceCall) returns (ids: Option<set<string>>)
    ensures Gives(call, ids)
    ensures ids.Some? <==> EntityIds(call).Some?
    ensures ids.Some? ==> forall s :: s in ids.value <==> s in EntityIds(call).value
  {
    ids := None;
    if call.target.Some? {
      GetIs(call.target.value, "entity_id");
      match Get(call.target.value, "entity_id")
      case Some(Str(s)) =>
        ids := Some({s});
        assert Maps(call.target.value, "entity_id", Str(s));
      case Some(List(xs)) =>
        ids := Some(set x: Value | x in xs && x.Str? :: x.s);
        assert Maps(call.target.value, "entity_id", List(xs));
        StringsAre(xs);
      case _ =>
    }
  }

  /** The rule is for the call's service, and sets no limit or lists every id given. */
  predicate LetsThrough(r: ServiceRule, call: ServiceCall, ids: Option<set<string>>) {
    && r.service == call.domain + "." + call.service
    && (r.target == None || r.target.value.entityIds == None
        || (ids.Some? && forall s :: s in ids.value ==> s in r.target.value.entityIds.value))
  }

  /** Some rule lets the call through with the ids that it gives. */
  ghost predicate SomeLetsThrough(rules: seq<ServiceRule>, call: ServiceCall) {
    exists ids :: Gives(call, ids) && exists r :: r in rules && LetsThrough(r, call, ids)
  }

  /** A service call is allowed exactly when some rule for its service sets no limit or lists every entity
      id that the call gives; the decision then names the service. */
  lemma AllowedExactly(services: seq<ServiceRule>, tools: seq<ToolRule>, say: Wording, call: ServiceCall)
    returns (ids: Option<set<string>>)
    ensures Gives(call, ids)
    ensures var d := Verdict(services, tools, say, Service(call));
            && d.Some?
            && (d.value.allowed <==> exists r :: r in services && LetsThrough(r, call, ids))
            && d.value.rule == if d.value.allowed then Some(call.domain + "." + call.service) else None
  {
    ids := EntityIdsGiven(call);
    AllowedIffPermitted(services, call);
    forall r ensures LetsThrough(r, call, ids) <==> Permits(r, call) {}
  }

  /** The reason of a decision is that of the first of these cases: no rule for the service; one without a
      limit; no ids given; allowed; not allowed. */
  lemma ReasonExactly(services: seq<ServiceRule>, tools: seq<ToolRule>, say: Wording, call: ServiceCall)
    returns (ids: Option<set<string>>)
    ensures Gives(call, ids)
    ensures var id, asked := call.domain + "." + call.service, Service(call);
            var reason := Verdict(services, tools, say, asked).value.reason;
            if forall r :: r in services ==> r.service != id then reason == say(NotListed, asked)
            else if exists r :: r in services && r.service == id && (r.target == None || r.target == Some(Target(None)))
              then reason == say(Permissive, asked)
            else if ids == None then reason == say(NeedsEntities, asked)
            else if exists r :: r in services && LetsThrough(r, call, ids) then reason == say(Covered, asked)
            else reason == say(NotCovered, asked)
  {
    ids := EntityIdsGiven(call);
    forall r ensures LetsThrough(r, call, ids) <==> Permits(r, call) {}
  }

  /** The call names a domain. */
  ghost predicate Requests(input: Value, domain: Value) {
    input.Dict? && domain != Scalar(Null) && Maps(input.entries, "domain", domain)
  }

  /** The rule sets `allow` as its domain list, and Python takes it for true. */
  ghost predicate Restricts(rule: ToolRule, allow: Value) {
    && Maps(rule.input, "domain_allowlist", allow)
    && allow !in {Str(""), List([]), Tuple([]), Dict([]), Scalar(Null), Scalar(Flag(false)), Scalar(Number(0.0))}
  }

  ghost predicate Within(s: string, t: string) {
    exists before, after :: t == before + s + after
  }

  lemma SubstringIsWithin(s: string, t: string)
    ensures Substring(s, t) <==> Within(s, t)
  {
    if i :| 0 <= i <= |t| && s <= t[i..] {
      assert t == t[..i] + s + t[i + |s|..] by { assert t[i..][|s|..] == t[i + |s|..]; }
    }
    if before, after :| t == before + s + after { assert t[|before|..] == s + after; }
  }

  /** A rule without a list, or a call without a domain, fits. */
  lemma UnrestrictedFits(rule: ToolRule, input: Value)
    requires (forall allow :: !Restricts(rule, allow)) || (forall domain :: !Requests(input, domain))
    ensures InputFits(rule, input) == Some(true)
  {
    GetIs(rule.input, "domain_allowlist");
    GetIs(InputEntries(input), "domain");
    var allow, domain := Get(rule.input, "domain_allowlist"), Get(InputEntries(input), "domain");
    if allow.Some? && domain.Some? {
      assert Maps(rule.input, "domain_allowlist", allow.value);
      assert !Restricts(rule, allow.value) || !Requests(input, domain.value);
    }
  }

  /** Otherwise the domain must be in the list; a list that is no container raises, and so do a domain that
      is not a string looked up in a string, and one that cannot be hashed looked up in a dictionary. */
  lemma RestrictedFits(rule: ToolRule, input: Value, allow: Value, domain: Value)
    requires Restricts(rule, allow) && Requests(input, domain)
    ensures match allow
            case List(xs) => InputFits(rule, input) == Some(domain in xs)
            case Tuple(xs) => InputFits(rule, input) == Some(domain in xs)
            case Str(t) => InputFits(rule, input) == if domain.Str? then Some(Within(domain.s, t)) else None
            case Dict(es) =>
              InputFits(rule, input)
              == (if domain.List? || domain.Dict? then None else Some(exists e :: e in es && Str(e.key) == domain))
            case Scalar(_) => InputFits(rule, input) == None
  {
    GetIs(rule.input, "domain_allowlist");
    GetIs(InputEntries(input), "domain");
    assert Get(rule.input, "domain_allowlist") == Some(allow) && Get(InputEntries(input), "domain") == Some(domain);
    if allow.Str? && domain.Str? { SubstringIsWithin(domain.s, allow.s); }
    if allow.Dict? && domain.Str? { GetIs(allow.entries, domain.s); }
  }


  predicate Matches(r: ToolRule, name: string, input: Value) {
    r.tool == name && InputFits(r, input) == Some(true)
  }

  predicate Raises(r: ToolRule, name: string, input: Value) {
    r.tool == name && InputFits(r, input).None?
  }

  /** Rule `i` matches and the scan gets that far. */
  predicate Reached(rules: seq<ToolRule>, i: nat, name: string, input: Value) {
    i < |rules| && Matches(rules[i], name, input) && forall k :: 0 <= k < i ==> !Raises(rules[k], name, input)
  }

  lemma ReachedTail(rules: seq<ToolRule>, i: nat, name: string, input: Value)
    requires rules != []
    ensures Reached(rules, i + 1, name, input) <==>
              !Raises(rules[0], name, input) && Reached(rules[1..], i, name, input)
  {
    var tail := rules[1..];
    if Reached(rules, i + 1, name, input) {
      forall k | 0 <= k < i ensures !Raises(tail[k], name, input) { assert tail[k] == rules[k + 1]; }
    }
    if !Raises(rules[0], name, input) && Reached(tail, i, name, input) {
      forall k | 0 <= k < i + 1 ensures !Raises(rules[k], name, input) { if k > 0 { assert rules[k] == tail[k - 1]; } }
    }
  }

  /** A tool call is allowed exactly when some rule matches it and no rule before that one raises. */
  lemma {:induction false} ToolAllowedIff(rules: seq<ToolRule>, name: string, input: Value)
    ensures ToolWhy(rules, name, input) == Some(InputMatches) <==> exists i: nat :: Reached(rules, i, name, input)
    decreases |rules|
  {
    if rules == [] { return; }
    var tail := rules[1..];
    ToolAllowedIff(tail, name, input);
    if i: nat :| Reached(tail, i, name, input) { ReachedTail(rules, i, name, input); }
    if i: nat :| Reached(rules, i, name, input) {
      if i > 0 { ReachedTail(rules, i - 1, name, input); }
    }
    if Matches(rules[0], name, input) { assert Reached(rules, 0, name, input); }
  }

  lemma {:induction false} ToolVerdicts(rules: seq<ToolRule>, name: string, input: Value)
    ensures ToolWhy(rules, name, input).Some? ==>
              ToolWhy(rules, name, input).value in {NotListed, InputMatches, InputRefused}
    decreases |rules|
  {
    if rules != [] { ToolVerdicts(rules[1..], name, input); }
  }

  /** A tool decision: an exception when a rule raises before one matches, allowed when one matches before
      any raises, and then it names the tool. */
  lemma {:induction false} ToolDecision(services: seq<ServiceRule>, rules: seq<ToolRule>, say: Wording, name: string,
                                        input: Value)
    ensures var asked := Tool(name, input); var d := Verdict(services, rules, say, asked);
            && (d.None? <==> !(exists i: nat :: Reached(rules, i, name, input)) && SomeRaises(rules, name, input))
            && (d.Some? ==>
                  var found := exists i: nat :: Reached(rules, i, name, input);
                  d.value == Decision(found,
                    say(if found then InputMatches else if SomeForTool(rules, name) then InputRefused else NotListed,
                        asked),
                    if found then Some(name) else None))
  {
    ToolAllowedIff(rules, name, input);
    if ToolWhy(rules, name, input) != Some(InputMatches) { ToolSettles(rules, name, input); }
  }

  lemma {:induction false} ToolSettles(rules: seq<ToolRule>, name: string, input: Value)
    requires ToolWhy(rules, name, input) != Some(InputMatches)
    ensures ToolWhy(rules, name, input) ==
            if SomeRaises(rules, name, input) then None
            else if SomeForTool(rules, name) then Some(InputRefused)
            else Some(NotListed)
    decreases |rules|
  {
    if rules != [] {
      var r, tail := rules[0], rules[1..];
      assert forall x :: x in rules <==> x == r || x in tail;
      assert SomeRaises(rules, name, input) <==> Raises(r, name, input) || SomeRaises(tail, name, input);
      assert SomeForTool(rules, name) <==> r.tool == name || SomeForTool(tail, name);
      if !Raises(r, name, input) { ToolSettles(tail, name, input); }
    }
  }

  ghost predicate SomeMatches(rules: seq<ToolRule>, name: string, input: Value) {
    exists r :: r in rules && Matches(r, name, input)
  }

  ghost predicate SomeRaises(rules: seq<ToolRule>, name: string, input: Value) {
    exists r :: r in rules && Raises(r, name, input)
  }

  ghost predicate SomeForTool(rules: seq<ToolRule>, name: string) {
    exists r :: r in rules && r.tool == name
  }

  /** Unless one rule for the tool raises on the input and another matches it, the outcome can be read off
      which rules there are, whatever their order. */
  lemma {:induction false} ToolWhySettled(rules: seq<ToolRule>, name: string, input: Value)
    requires !(SomeMatches(rules, name, input) && SomeRaises(rules, name, input))
    ensures ToolWhy(rules, name, input) ==
            if SomeRaises(rules, name, input) then None
            else if SomeMatches(rules, name, input) then Some(InputMatches)
            else if SomeForTool(rules, name) then Some(InputRefused)
            else Some(NotListed)
    decreases |rules|
  {
    if rules != [] {
      var r, tail := rules[0], rules[1..];
      assert forall x :: x in rules <==> x == r || x in tail;
      assert SomeMatches(rules, name, input) <==> Matches(r, name, input) || SomeMatches(tail, name, input);
      assert SomeRaises(rules, name, input) <==> Raises(r, name, input) || SomeRaises(tail, name, input);
      assert SomeForTool(rules, name) <==> r.tool == name || SomeForTool(tail, name);
      ToolWhySettled(tail, name, input);
    }
  }

  /** `rules` with entry `i` moved to the front. */
  function Fronted(rules: seq<ToolRule>, i: nat): seq<ToolRule>
    requires i < |rules|
  {
    [rules[i]] + (rules[..i] + rules[i + 1..])
  }

  lemma FrontedSame(rules: seq<ToolRule>, i: nat)
    requires i < |rules|
    ensures multiset(Fronted(rules, i)) == multiset(rules)
  {
    assert rules == rules[..i] + [rules[i]] + rules[i + 1..];
  }

  lemma SameMembers(rules: seq<ToolRule>, other: seq<ToolRule>)
    requires multiset(rules) == multiset(other)
    ensures forall r :: r in rules <==> r in other
  {
    forall r ensures r in rules <==> r in other {
      assert r in rules <==> r in multiset(rules);
      assert r in other <==> r in multiset(other);
    }
  }

  lemma SettledAnyOrder(rules: seq<ToolRule>, other: seq<ToolRule>, name: string, input: Value)
    requires multiset(rules) == multiset(other) && !(SomeMatches(rules, name, input) && SomeRaises(rules, name, input))
    ensures ToolWhy(other, name, input) == ToolWhy(rules, name, input)
  {
    SameMembers(rules, other);
    assert SomeMatches(rules, name, input) <==> SomeMatches(other, name, input);
    assert SomeRaises(rules, name, input) <==> SomeRaises(other, name, input);
    assert SomeForTool(rules, name) <==> SomeForTool(other, name);
    ToolWhySettled(rules, name, input);
    ToolWhySettled(other, name, input);
  }

  /** All orders of the rules give a tool call the same outcome exactly when it is not the case that one
      rule for the tool raises on its input and another matches it. */
  lemma ToolOrderIrrelevantIff(rules: seq<ToolRule>, name: string, input: Value)
    ensures (forall other ::
               multiset(other) == multiset(rules) ==> ToolWhy(other, name, input) == ToolWhy(rules, name, input))
       <==> !(SomeMatches(rules, name, input) && SomeRaises(rules, name, input))
  {
    if SomeMatches(rules, name, input) && SomeRaises(rules, name, input) {
      var m :| m in rules && Matches(m, name, input);
      var r :| r in rules && Raises(r, name, input);
      var i: nat :| i < |rules| && rules[i] == m;
      var j: nat :| j < |rules| && rules[j] == r;
      FrontedSame(rules, i);
      FrontedSame(rules, j);
      assert ToolWhy(Fronted(rules, i), name, input) == Some(InputMatches);
      assert ToolWhy(Fronted(rules, j), name, input) == None;
    } else {
      forall other | multiset(other) == multiset(rules)
        ensures ToolWhy(other, name, input) == ToolWhy(rules, name, input)
      {
        SettledAnyOrder(rules, other, name, input);
      }
    }
  }

  /** Two rules for one tool that allow a call in one order and raise in the other. */
  lemma ToolOrderMatters()
    ensures var bad := ToolRule("web_search", [Entry("domain_allowlist", Scalar(Number(5.0)))]);
            var good := ToolRule("web_search", []);
            var input := Dict([Entry("domain", Str("x"))]);
            && ToolWhy([good, bad], "web_search", input) == Some(InputMatches)
            && ToolWhy([bad, good], "web_search", input) == None
  {
    var bad := ToolRule("web_search", [Entry("domain_allowlist", Scalar(Number(5.0)))]);
    assert Get(bad.input, "domain_allowlist") == Some(Scalar(Number(5.0)));
    assert Get([Entry("domain", Str("x"))], "domain") == Some(Str("x"));
  }

  lemma {:induction false} ToolWhyConcat(xs: seq<ToolRule>, ys: seq<ToolRule>, name: string, input: Value)
    ensures ToolWhy(xs + ys, name, input) ==
            if ToolWhy(xs, name, input) in {None, Some(InputMatches)} then ToolWhy(xs, name, input)
            else if ToolWhy(ys, name, input) == Some(NotListed) then ToolWhy(xs, name, input)
            else ToolWhy(ys, name, input)
    decreases |xs|
  {
    ToolVerdicts(xs, name, input);
    if xs == [] {
      assert xs + ys == ys;
    } else {
      assert (xs + ys)[1..] == xs[1..] + ys;
      ToolWhyConcat(xs[1..], ys, name, input);
      ToolVerdicts(xs[1..], name, input);
    }
  }

  /** An allowed tool call stays allowed when a rule is added, exactly when the new rule does not raise on
      it or a matching rule comes before it. */
  lemma AddingToolIff(before: seq<ToolRule>, rule: ToolRule, after: seq<ToolRule>, name: string, input: Value)
    requires ToolWhy(before + after, name, input) == Some(InputMatches)
    ensures ToolWhy(before + [rule] + after, name, input) == Some(InputMatches)
       <==> !Raises(rule, name, input) || ToolWhy(before, name, input) == Some(InputMatches)
  {
    ToolWhyConcat(before, after, name, input);
    ToolWhyConcat(before + [rule], after, name, input);
    ToolWhyConcat(before, [rule], name, input);
    assert [rule][1..] == [];
  }

  // ---------------------------------------------------------------- identifiers

  predicate IdChar(c: char) {
    'a' <= c <= 'z' || '0' <= c <= '9' || c == '_'
  }

  /** The shape the loader demands of a rule's service: two words with one dot between them. */
  ghost predicate IsServiceId(id: string) {
    exists k :: 0 < k < |id| - 1 && id[k] == '.' && forall i :: 0 <= i < |id| && i != k ==> IdChar(id[i])
  }

  /** A rule names one domain and one service: whatever call carries its id splits there. */
  lemma IdSplitsOnce(id: string, a: ServiceCall, b: ServiceCall)
    requires IsServiceId(id) && ServiceId(a) == id && ServiceId(b) == id
    ensures a.domain == b.domain && a.service == b.service
  {
    var k :| 0 < k < |id| - 1 && id[k] == '.' && forall i :: 0 <= i < |id| && i != k ==> IdChar(id[i]);
    DotAt(id, a, k);
    DotAt(id, b, k);
  }

  lemma DotAt(id: string, call: ServiceCall, k: nat)
    requires k < |id| && ServiceId(call) == id && forall i :: 0 <= i < |id| && i != k ==> IdChar(id[i])
    ensures call.domain == id[..k] && call.service == id[k + 1..]
  {
    assert id[|call.domain|] == '.';
    assert |call.domain| == k;
  }

  /** Two calls let through by the same rule are for the same service. */
  lemma AllowedServiceUnique(rules: seq<ServiceRule>, r: ServiceRule, a: ServiceCall, b: ServiceCall)
    requires r in rules && IsServiceId(r.service) && Permits(r, a) && Permits(r, b)
    ensures a.domain == b.domain && a.service == b.service
  {
    IdSplitsOnce(r.service, a, b);
  }
}
