/** The semantic indexer: it embeds un-indexed audit rows, a batch at a time, and exactly when it gets stuck. */
module Semantic {
  import opened Prelude
  import opened AuditClamp

  /** An audit row; the payload is a dictionary. */
  datatype LogRow = LogRow(id: int, eventType: string, payload: seq<Entry>)

  /** `dumps` renders a whole payload as text. */
  datatype Config = Config(types: seq<string>, batchSize: nat, dumps: seq<Entry> -> string)

  datatype Chunk = Chunk(id: int, text: string, embedding: seq<real>)

  datatype Pair = Pair(id: int, text: string)

  /** The characters that `str.strip` removes. */
  predicate IsSpace(c: char) {
    var n := c as int;
    || 0x09 <= n <= 0x0D || 0x1C <= n <= 0x20 || n == 0x85 || n == 0xA0 || n == 0x1680
    || 0x2000 <= n <= 0x200A || n == 0x2028 || n == 0x2029 || n == 0x202F || n == 0x205F || n == 0x3000
  }

  predicate Blank(s: string) {
    forall c :: c in s ==> IsSpace(c)
  }

  function TextOf(row: LogRow, cfg: Config): Option<string> {
    if row.eventType == "chat.completed" then
      var reply := Get(row.payload, "reply");
      if reply.Some? && reply.value.Str? && !Blank(reply.value.s) then Some(reply.value.s) else None
    else Some(cfg.dumps(row.payload))
  }

  predicate Wanted(row: LogRow, cfg: Config) {
    row.eventType in cfg.types
  }

  predicate Indexable(row: LogRow, cfg: Config) {
    Wanted(row, cfg) && TextOf(row, cfg).Some? && TextOf(row, cfg).value != ""
  }

  /** The query: rows of the configured types that have no chunk, in id order. */
  function Pending(log: seq<LogRow>, done: set<int>, cfg: Config): seq<LogRow> {
    if log == [] then []
    else
      var last := log[|log| - 1];
      Pending(log[..|log| - 1], done, cfg) + if Wanted(last, cfg) && last.id !in done then [last] else []
  }

  function Fetch(log: seq<LogRow>, done: set<int>, cfg: Config): seq<LogRow> {
    var due := Pending(log, done, cfg);
    if |due| <= cfg.batchSize then due else due[..cfg.batchSize]
  }

  function PairsOf(rows: seq<LogRow>, cfg: Config): seq<Pair> {
    if rows == [] then []
    else
      var last := rows[|rows| - 1];
      var text := TextOf(last, cfg);
      PairsOf(rows[..|rows| - 1], cfg) + if text.Some? && text.value != "" then [Pair(last.id, text.value)] else []
  }

  function ChunksOf(pairs: seq<Pair>, vectors: seq<seq<real>>): seq<Chunk>
    requires |pairs| == |vectors|
  {
    seq(|pairs|, i requires 0 <= i < |pairs| => Chunk(pairs[i].id, pairs[i].text, vectors[i]))
  }

  function Done(chunks: seq<Chunk>): set<int> {
    set c | c in chunks :: c.id
  }

  datatype State = State(log: seq<LogRow>, chunks: seq<Chunk>)

  /** What the next call would embed. */
  function Due(s: State, cfg: Config): seq<Pair> {
    PairsOf(Fetch(s.log, Done(s.chunks), cfg), cfg)
  }

  /** The embedder's answer is usable: one vector for each text. `None` is an exception. */
  predicate Usable(s: State, cfg: Config, answer: Option<seq<seq<real>>>) {
    answer.Some? && |answer.value| == |Due(s, cfg)|
  }

  function Called(s: State, cfg: Config, answer: Option<seq<seq<real>>>): State {
    if Usable(s, cfg, answer) then s.(chunks := s.chunks + ChunksOf(Due(s, cfg), answer.value)) else s
  }

  class SemanticIndexer {
    const cfg: Config
    var log: seq<LogRow>
    var chunks: seq<Chunk>

    constructor (cfg: Config)
      ensures this.cfg == cfg && log == [] && chunks == []
    {
      this.cfg := cfg;
      log, chunks := [], [];
    }

    /** Index one batch; `None` when an exception escapes, which leaves the table as it was. */
    method IndexPending(answer: Option<seq<seq<real>>>) returns (indexed: Option<nat>)
      modifies this
      ensures State(log, chunks) == Called(State(old(log), old(chunks)), cfg, answer)
      ensures var due := Due(State(old(log), old(chunks)), cfg);
              indexed == if due == [] || Usable(State(old(log), old(chunks)), cfg, answer) then Some(|due|) else None
    {
      ghost var s := State(log, chunks);
      var rows := Fetch(log, Done(chunks), cfg);
      assert PairsOf(rows, cfg) == Due(s, cfg);
      var pairs: seq<Pair> := [];
      for i := 0 to |rows|
        invariant pairs == PairsOf(rows[..i], cfg) && State(log, chunks) == s
      {
        PairsSnoc(rows, i, cfg);
        var text := TextOf(rows[i], cfg);
        if text.Some? && text.value != "" { pairs := pairs + [Pair(rows[i].id, text.value)]; }
      }
      assert rows[..|rows|] == rows;
      if pairs == [] {
        NothingDue(s, cfg, answer);
        return Some(0);
      }
      if answer.None? { return None; }
      var staged := chunks;
      var k := 0;
      while k < |pairs| && k < |answer.value|
        invariant 0 <= k <= |pairs| && k <= |answer.value| && State(log, chunks) == s
        invariant staged == chunks + ChunksOf(pairs[..k], answer.value[..k])
      {
        ChunksSnoc(chunks, pairs, answer.value, k);
        staged := staged + [Chunk(pairs[k].id, pairs[k].text, answer.value[k])];
        k := k + 1;
      }
      if |pairs| != |answer.value| { return None; }
      assert pairs[..k] == pairs && answer.value[..k] == answer.value;
      chunks := staged;
      indexed := Some(|pairs|);
    }
  }

  lemma NothingDue(s: State, cfg: Config, answer: Option<seq<seq<real>>>)
    requires Due(s, cfg) == []
    ensures Called(s, cfg, answer) == s
  {
    if Usable(s, cfg, answer) { assert s.chunks + ChunksOf([], answer.value) == s.chunks; }
  }

  lemma PairsSnoc(rows: seq<LogRow>, i: nat, cfg: Config)
    requires i < |rows|
    ensures PairsOf(rows[..i + 1], cfg) == PairsOf(rows[..i], cfg)
         + var text := TextOf(rows[i], cfg);
           if text.Some? && text.value != "" then [Pair(rows[i].id, text.value)] else []
  {
    assert rows[..i + 1][..i] == rows[..i];
  }

  lemma ChunksSnoc(chunks: seq<Chunk>, pairs: seq<Pair>, vectors: seq<seq<real>>, k: nat)
    requires k < |pairs| && k < |vectors|
    ensures chunks + ChunksOf(pairs[..k + 1], vectors[..k + 1])
         == chunks + ChunksOf(pairs[..k], vectors[..k]) + [Chunk(pairs[k].id, pairs[k].text, vectors[k])]
  {
    assert ChunksOf(pairs[..k + 1], vectors[..k + 1]) == ChunksOf(pairs[..k], vectors[..k])
        + [Chunk(pairs[k].id, pairs[k].text, vectors[k])];
  }

  // ---------------------------------------------------------------- chunks tell the truth

  predicate Increasing(log: seq<LogRow>) {
    forall i, j :: 0 <= i < j < |log| ==> log[i].id < log[j].id
  }

  predicate Explains(row: LogRow, c: Chunk, cfg: Config) {
    row.id == c.id && Indexable(row, cfg) && c.text == TextOf(row, cfg).value
  }

  ghost predicate Explained(log: seq<LogRow>, c: Chunk, cfg: Config) {
    exists row :: row in log && Explains(row, c, cfg)
  }

  /** Log ids grow; no row has two chunks; each chunk holds the text of its row. */
  ghost predicate Faithful(s: State, cfg: Config) {
    && Increasing(s.log)
    && (forall i, j :: 0 <= i < j < |s.chunks| ==> s.chunks[i].id != s.chunks[j].id)
    && (forall c :: c in s.chunks ==> Explained(s.log, c, cfg))
  }

  /** Anyone may append a row; a call is `index_pending` with the embedder's answer. */
  datatype Step = Append(eventType: string, payload: seq<Entry>) | Call(answer: Option<seq<seq<real>>>)

  function NextId(log: seq<LogRow>): int {
    if log == [] then 1 else log[|log| - 1].id + 1
  }

  function Do(s: State, step: Step, cfg: Config): State {
    match step
    case Append(t, p) => s.(log := s.log + [LogRow(NextId(s.log), t, p)])
    case Call(answer) => Called(s, cfg, answer)
  }

  function Run(s: State, steps: seq<Step>, cfg: Config): State {
    if steps == [] then s else Do(Run(s, steps[..|steps| - 1], cfg), steps[|steps| - 1], cfg)
  }

  lemma {:induction false} PendingIn(log: seq<LogRow>, done: set<int>, cfg: Config)
    ensures forall r :: r in Pending(log, done, cfg) ==> r in log && Wanted(r, cfg) && r.id !in done
  {
    if log != [] { PendingIn(log[..|log| - 1], done, cfg); }
  }

  lemma {:induction false} PendingIncreasing(log: seq<LogRow>, done: set<int>, cfg: Config)
    requires Increasing(log)
    ensures Increasing(Pending(log, done, cfg))
  {
    if log != [] {
      PendingIncreasing(log[..|log| - 1], done, cfg);
      PendingIn(log[..|log| - 1], done, cfg);
    }
  }

  predicate PairsGrow(ps: seq<Pair>) {
    forall i, j :: 0 <= i < j < |ps| ==> ps[i].id < ps[j].id
  }

  predicate Yields(row: LogRow, p: Pair, cfg: Config) {
    row.id == p.id && TextOf(row, cfg) == Some(p.text) && p.text != ""
  }

  lemma {:induction false} PairsFrom(rows: seq<LogRow>, cfg: Config)
    ensures forall p :: p in PairsOf(rows, cfg) ==> exists r :: r in rows && Yields(r, p, cfg)
  {
    if rows != [] {
      var front, last := rows[..|rows| - 1], rows[|rows| - 1];
      PairsFrom(front, cfg);
      forall p | p in PairsOf(rows, cfg) ensures exists r :: r in rows && Yields(r, p, cfg) {
        if p in PairsOf(front, cfg) {
          var r :| r in front && Yields(r, p, cfg);
          assert r in rows;
        } else {
          assert last in rows && Yields(last, p, cfg);
        }
      }
    }
  }

  lemma {:induction false} PairsIncreasing(rows: seq<LogRow>, cfg: Config)
    requires Increasing(rows)
    ensures PairsGrow(PairsOf(rows, cfg))
  {
    if rows != [] {
      var front := rows[..|rows| - 1];
      PairsIncreasing(front, cfg);
      PairsFrom(front, cfg);
      forall p | p in PairsOf(front, cfg) ensures p.id < rows[|rows| - 1].id {
        var r :| r in front && Yields(r, p, cfg);
        var i :| 0 <= i < |front| && front[i] == r;
        assert rows[i] == r;
      }
    }
  }

  lemma CallKeepsFaithful(s: State, cfg: Config, answer: Option<seq<seq<real>>>)
    requires Faithful(s, cfg)
    ensures Faithful(Called(s, cfg, answer), cfg)
  {
    if !Usable(s, cfg, answer) { return; }
    var done, rows, due := Done(s.chunks), Fetch(s.log, Done(s.chunks), cfg), Due(s, cfg);
    PendingIn(s.log, done, cfg);
    PendingIncreasing(s.log, done, cfg);
    PairsIncreasing(rows, cfg);
    PairsFrom(rows, cfg);
    var added := ChunksOf(due, answer.value);
    forall c | c in added ensures Explained(s.log, c, cfg) && c.id !in done {
      var i :| 0 <= i < |added| && added[i] == c;
      assert due[i] in due;
      var r :| r in rows && Yields(r, due[i], cfg);
      assert r in Pending(s.log, done, cfg) && Explains(r, c, cfg);
    }
    FreshDistinct(s.chunks, added, due);
  }

  lemma FreshDistinct(chunks: seq<Chunk>, added: seq<Chunk>, due: seq<Pair>)
    requires |added| == |due| && forall i :: 0 <= i < |added| ==> added[i].id == due[i].id
    requires PairsGrow(due)
    requires forall i, j :: 0 <= i < j < |chunks| ==> chunks[i].id != chunks[j].id
    requires forall c :: c in added ==> c.id !in Done(chunks)
    ensures var all := chunks + added; forall i, j :: 0 <= i < j < |all| ==> all[i].id != all[j].id
  {
    var all := chunks + added;
    forall i, j | 0 <= i < j < |all| ensures all[i].id != all[j].id {
      if j >= |chunks| {
        assert all[j] == added[j - |chunks|] && all[j] in added;
        if i < |chunks| {
          assert all[i] in chunks;
        } else {
          assert due[i - |chunks|].id < due[j - |chunks|].id;
        }
      }
    }
  }

  /** In every run every chunk holds the extracted text of its own row, and no row has two. */
  lemma {:induction false} AlwaysFaithful(s: State, steps: seq<Step>, cfg: Config)
    requires Faithful(s, cfg)
    ensures Faithful(Run(s, steps, cfg), cfg)
    ensures s.log <= Run(s, steps, cfg).log && s.chunks <= Run(s, steps, cfg).chunks
  {
    if steps != [] {
      var front := Run(s, steps[..|steps| - 1], cfg);
      AlwaysFaithful(s, steps[..|steps| - 1], cfg);
      match steps[|steps| - 1]
      case Call(answer) => CallKeepsFaithful(front, cfg, answer);
      case Append(t, p) => AppendKeepsFaithful(front, LogRow(NextId(front.log), t, p), cfg);
    }
  }

  lemma AppendKeepsFaithful(s: State, row: LogRow, cfg: Config)
    requires Faithful(s, cfg) && row.id == NextId(s.log)
    ensures Faithful(s.(log := s.log + [row]), cfg)
  {
    forall c | c in s.chunks ensures Explained(s.log + [row], c, cfg) {
      var r :| r in s.log && Explains(r, c, cfg);
      assert r in s.log + [row];
    }
  }

  /** What a row gives to embed: a chat its reply, if that is a string with more than white space in it; a
      row of another type its whole payload as text. */
  ghost predicate Gives(row: LogRow, text: string, cfg: Config) {
    if row.eventType == "chat.completed"
    then Maps(row.payload, "reply", Str(text)) && exists c :: c in text && !IsSpace(c)
    else text == cfg.dumps(row.payload)
  }

  lemma GivesIff(row: LogRow, cfg: Config)
    ensures forall text :: Gives(row, text, cfg) <==> TextOf(row, cfg) == Some(text)
    ensures Indexable(row, cfg) <==> row.eventType in cfg.types && exists text :: Gives(row, text, cfg) && text != ""
  {
    GetIs(row.payload, "reply");
    forall text ensures Gives(row, text, cfg) <==> TextOf(row, cfg) == Some(text) {}
    if Indexable(row, cfg) { assert Gives(row, TextOf(row, cfg).value, cfg); }
  }

  /** In every run from an empty table, each chunk is what its own row gives, and the row is of a configured
      type. */
  lemma ChunksTell(log: seq<LogRow>, steps: seq<Step>, cfg: Config, c: Chunk)
    requires Increasing(log) && c in Run(State(log, []), steps, cfg).chunks
    ensures exists row :: row in Run(State(log, []), steps, cfg).log && row.id == c.id
              && row.eventType in cfg.types && Gives(row, c.text, cfg)
  {
    var s := Run(State(log, []), steps, cfg);
    AlwaysFaithful(State(log, []), steps, cfg);
    assert Explained(s.log, c, cfg);
    var row :| row in s.log && Explains(row, c, cfg);
    GivesIff(row, cfg);
  }

  /** The vectors are those of the due texts, each at its place. */
  predicate Embeds(s: State, cfg: Config, vectors: seq<seq<real>>, embed: map<string, seq<real>>) {
    && |vectors| == |Due(s, cfg)|
    && forall k :: 0 <= k < |vectors| ==> Due(s, cfg)[k].text in embed && vectors[k] == embed[Due(s, cfg)[k].text]
  }

  /** Every answer that is used gives each text its own vector. */
  ghost predicate AllEmbed(s: State, steps: seq<Step>, cfg: Config, embed: map<string, seq<real>>) {
    steps == [] ||
    var front, last := steps[..|steps| - 1], steps[|steps| - 1];
    && AllEmbed(s, front, cfg, embed)
    && (last.Call? && Usable(Run(s, front, cfg), cfg, last.answer) ==>
          Embeds(Run(s, front, cfg), cfg, last.answer.value, embed))
  }

  predicate Vectored(chunks: seq<Chunk>, embed: map<string, seq<real>>) {
    forall c :: c in chunks ==> c.text in embed && c.embedding == embed[c.text]
  }

  /** Then every chunk has the vector of its own text. */
  lemma {:induction false} EmbeddingsTell(s: State, steps: seq<Step>, cfg: Config, embed: map<string, seq<real>>)
    requires Vectored(s.chunks, embed) && AllEmbed(s, steps, cfg, embed)
    ensures Vectored(Run(s, steps, cfg).chunks, embed)
  {
    if steps != [] {
      var before, last := Run(s, steps[..|steps| - 1], cfg), steps[|steps| - 1];
      EmbeddingsTell(s, steps[..|steps| - 1], cfg, embed);
      if last.Call? && Usable(before, cfg, last.answer) {
        var added := ChunksOf(Due(before, cfg), last.answer.value);
        forall c | c in added ensures c.text in embed && c.embedding == embed[c.text] {
          var k :| 0 <= k < |added| && added[k] == c;
        }
      }
    }
  }

  // ---------------------------------------------------------------- who is reached

  /** Rows of a configured type that yield no text: they are fetched again by every call. */
  function Blanks(log: seq<LogRow>, cfg: Config): nat {
    if log == [] then 0
    else
      var last := log[|log| - 1];
      Blanks(log[..|log| - 1], cfg) + if Wanted(last, cfg) && !Indexable(last, cfg) then 1 else 0
  }

  predicate Waits(row: LogRow, done: set<int>, cfg: Config) {
    Indexable(row, cfg) && row.id !in done
  }

  function Waiting(log: seq<LogRow>, done: set<int>, cfg: Config): nat {
    if log == [] then 0
    else Waiting(log[..|log| - 1], done, cfg) + if Waits(log[|log| - 1], done, cfg) then 1 else 0
  }

  /** Only rows with text have chunks. */
  predicate BlanksOpen(log: seq<LogRow>, done: set<int>, cfg: Config) {
    forall r :: r in log && r.id in done ==> Indexable(r, cfg)
  }

  lemma FaithfulBlanksOpen(s: State, cfg: Config)
    requires Faithful(s, cfg)
    ensures BlanksOpen(s.log, Done(s.chunks), cfg)
  {
    forall r | r in s.log && r.id in Done(s.chunks) ensures Indexable(r, cfg) {
      var c :| c in s.chunks && c.id == r.id;
      var r' :| r' in s.log && Explains(r', c, cfg);
      SameRow(s.log, r, r');
    }
  }

  lemma SameRow(log: seq<LogRow>, r: LogRow, r': LogRow)
    requires Increasing(log) && r in log && r' in log && r.id == r'.id
    ensures r == r'
  {
    var i :| 0 <= i < |log| && log[i] == r;
    var j :| 0 <= j < |log| && log[j] == r';
    assert !(i < j) && !(j < i);
  }

  lemma {:induction false} PendingSplit(log: seq<LogRow>, done: set<int>, cfg: Config)
    requires BlanksOpen(log, done, cfg)
    ensures |Pending(log, done, cfg)| == Blanks(log, cfg) + Waiting(log, done, cfg)
  {
    if log != [] {
      assert log[|log| - 1] in log;
      PendingSplit(log[..|log| - 1], done, cfg);
    }
  }

  /** A pending row stands in the query result behind exactly the pending rows before it. */
  lemma {:induction false} PendingAt(log: seq<LogRow>, done: set<int>, cfg: Config, j: nat)
    requires j < |log| && Wanted(log[j], cfg) && log[j].id !in done
    ensures |Pending(log[..j], done, cfg)| < |Pending(log, done, cfg)|
    ensures Pending(log, done, cfg)[|Pending(log[..j], done, cfg)|] == log[j]
  {
    if j < |log| - 1 {
      assert log[..|log| - 1][..j] == log[..j];
      PendingAt(log[..|log| - 1], done, cfg, j);
    }
  }

  lemma {:induction false} PendingFrom(log: seq<LogRow>, done: set<int>, cfg: Config, m: nat) returns (j: nat)
    requires m < |Pending(log, done, cfg)|
    ensures j < |log| && Pending(log, done, cfg)[m] == log[j] && |Pending(log[..j], done, cfg)| == m
  {
    var front := log[..|log| - 1];
    if m < |Pending(front, done, cfg)| {
      j := PendingFrom(front, done, cfg, m);
      assert log[..j] == front[..j];
    } else {
      j := |log| - 1;
    }
  }

  function PairIds(ps: seq<Pair>): set<int> {
    set p | p in ps :: p.id
  }

  lemma {:induction false} PairFor(rows: seq<LogRow>, cfg: Config, r: LogRow)
    requires r in rows && TextOf(r, cfg).Some? && TextOf(r, cfg).value != ""
    ensures r.id in PairIds(PairsOf(rows, cfg))
  {
    var front, last := rows[..|rows| - 1], rows[|rows| - 1];
    if r == last {
      assert Pair(r.id, TextOf(r, cfg).value) in PairsOf(rows, cfg);
    } else {
      PairFor(front, cfg, r);
      var p :| p in PairsOf(front, cfg) && p.id == r.id;
      assert p in PairsOf(rows, cfg);
    }
  }

  /** A call takes up exactly the rows with text among the first `batchSize` pending ones. */
  lemma CallTakes(log: seq<LogRow>, done: set<int>, cfg: Config, j: nat)
    requires Increasing(log) && j < |log|
    ensures log[j].id in PairIds(PairsOf(Fetch(log, done, cfg), cfg))
       <==> Waits(log[j], done, cfg) && |Pending(log[..j], done, cfg)| < cfg.batchSize
  {
    var row, due, rows := log[j], Pending(log, done, cfg), Fetch(log, done, cfg);
    PendingIn(log, done, cfg);
    if row.id in PairIds(PairsOf(rows, cfg)) {
      var p :| p in PairsOf(rows, cfg) && p.id == row.id;
      PairsFrom(rows, cfg);
      var r :| r in rows && Yields(r, p, cfg);
      var m :| 0 <= m < |rows| && rows[m] == r;
      assert due[m] == r;
      var j' := PendingFrom(log, done, cfg, m);
      assert !(j < j') && !(j' < j);
    }
    if Waits(row, done, cfg) && |Pending(log[..j], done, cfg)| < cfg.batchSize {
      PendingAt(log, done, cfg, j);
      assert rows[|Pending(log[..j], done, cfg)|] == row;
      PairFor(rows, cfg, row);
    }
  }

  lemma {:induction false} FirstWaiting(log: seq<LogRow>, done: set<int>, cfg: Config) returns (j: nat)
    requires Waiting(log, done, cfg) > 0
    ensures j < |log| && Waits(log[j], done, cfg) && Waiting(log[..j], done, cfg) == 0
  {
    var front := log[..|log| - 1];
    if Waiting(front, done, cfg) > 0 {
      j := FirstWaiting(front, done, cfg);
      assert log[..j] == front[..j];
    } else {
      j := |log| - 1;
    }
  }

  lemma {:induction false} CountsMonotone(log: seq<LogRow>, done: set<int>, cfg: Config, j: nat)
    requires j <= |log|
    ensures Blanks(log[..j], cfg) <= Blanks(log, cfg) && Waiting(log[..j], done, cfg) <= Waiting(log, done, cfg)
    ensures j < |log| && Waits(log[j], done, cfg) ==> Waiting(log[..j], done, cfg) < Waiting(log, done, cfg)
  {
    if j == |log| {
      assert log[..j] == log;
    } else if j < |log| - 1 {
      assert log[..|log| - 1][..j] == log[..j];
      CountsMonotone(log[..|log| - 1], done, cfg, j);
    }
  }

  lemma BlanksOpenPrefix(log: seq<LogRow>, done: set<int>, cfg: Config, j: nat)
    requires BlanksOpen(log, done, cfg) && j <= |log|
    ensures BlanksOpen(log[..j], done, cfg)
  {
  }

  /** If anything waits behind fewer than `batchSize` blanks, the first row that waits is taken. */
  lemma FirstIsTaken(log: seq<LogRow>, done: set<int>, cfg: Config, i: nat) returns (j: nat)
    requires Increasing(log) && BlanksOpen(log, done, cfg) && i <= |log|
    requires Waiting(log[..i], done, cfg) > 0 && Blanks(log[..i], cfg) < cfg.batchSize
    ensures j < i && Waits(log[j], done, cfg) && log[j].id in PairIds(PairsOf(Fetch(log, done, cfg), cfg))
  {
    j := FirstWaiting(log[..i], done, cfg);
    assert log[..i][..j] == log[..j];
    CountsMonotone(log[..i], done, cfg, j);
    BlanksOpenPrefix(log, done, cfg, j);
    PendingSplit(log[..j], done, cfg);
    CallTakes(log, done, cfg, j);
  }

  /** A call finds nothing exactly when every row that still waits has at least `batchSize` blank rows
      before it; then every later call finds nothing either. */
  lemma StallsIff(log: seq<LogRow>, done: set<int>, cfg: Config)
    requires Increasing(log) && BlanksOpen(log, done, cfg)
    ensures PairsOf(Fetch(log, done, cfg), cfg) == []
       <==> forall i :: 0 <= i < |log| && Waits(log[i], done, cfg) ==> Blanks(log[..i], cfg) >= cfg.batchSize
  {
    var due := PairsOf(Fetch(log, done, cfg), cfg);
    if due == [] {
      forall i | 0 <= i < |log| && Waits(log[i], done, cfg) ensures Blanks(log[..i], cfg) >= cfg.batchSize {
        if Blanks(log[..i], cfg) < cfg.batchSize {
          assert log[..i + 1][..i] == log[..i];
          var j := FirstIsTaken(log, done, cfg, i + 1);
          assert false;
        }
      }
    } else {
      PairsFrom(Fetch(log, done, cfg), cfg);
      assert due[0] in due;
      var r :| r in Fetch(log, done, cfg) && Yields(r, due[0], cfg);
      PendingIn(log, done, cfg);
      assert r in Pending(log, done, cfg);
      var i :| 0 <= i < |log| && log[i] == r;
      assert log[i].id in PairIds(due);
      CallTakes(log, done, cfg, i);
      BlanksOpenPrefix(log, done, cfg, i);
      PendingSplit(log[..i], done, cfg);
    }
  }

  // ---------------------------------------------------------------- over runs

  /** Calls of a run in which the embedder answered. */
  function Answered(s: State, steps: seq<Step>, cfg: Config): nat {
    if steps == [] then 0
    else
      var front, last := steps[..|steps| - 1], steps[|steps| - 1];
      Answered(s, front, cfg)
      + if last.Call? && (Due(Run(s, front, cfg), cfg) == [] || Usable(Run(s, front, cfg), cfg, last.answer)) then 1
        else 0
  }

  lemma {:induction false} WaitingShrinks(log: seq<LogRow>, done: set<int>, more: set<int>, cfg: Config)
    requires done <= more
    ensures Waiting(log, more, cfg) <= Waiting(log, done, cfg)
    ensures (exists r :: r in log && Waits(r, done, cfg) && r.id in more) ==>
        Waiting(log, more, cfg) < Waiting(log, done, cfg)
  {
    if log != [] {
      var front, last := log[..|log| - 1], log[|log| - 1];
      WaitingShrinks(front, done, more, cfg);
      if r :| r in log && Waits(r, done, cfg) && r.id in more {
        assert r == last || r in front;
      }
    }
  }

  lemma DoneGrows(s: State, cfg: Config, answer: Option<seq<seq<real>>>)
    ensures Done(Called(s, cfg, answer).chunks)
         == if Usable(s, cfg, answer) then Done(s.chunks) + PairIds(Due(s, cfg)) else Done(s.chunks)
  {
    if Usable(s, cfg, answer) {
      var due, added := Due(s, cfg), ChunksOf(Due(s, cfg), answer.value);
      forall p | p in due ensures p.id in Done(added) {
        var i :| 0 <= i < |due| && due[i] == p;
        assert added[i] in added;
      }
      forall c | c in added ensures c.id in PairIds(due) {
        var i :| 0 <= i < |added| && added[i] == c;
        assert due[i] in due;
      }
      DoneConcat(s.chunks, added);
      assert Done(added) == PairIds(due);
    }
  }

  lemma DoneConcat(xs: seq<Chunk>, ys: seq<Chunk>)
    ensures Done(xs + ys) == Done(xs) + Done(ys)
  {
  }

  /** While row `i` is not indexed and can be, every answered call takes at least one row before it. */
  lemma CallAdvances(s: State, cfg: Config, answer: Option<seq<seq<real>>>, i: nat)
    requires Faithful(s, cfg) && i < |s.log| && Indexable(s.log[i], cfg) && Blanks(s.log[..i], cfg) < cfg.batchSize
    requires Due(s, cfg) == [] || Usable(s, cfg, answer)
    requires s.log[i].id !in Done(s.chunks)
    ensures Waiting(s.log[..i + 1], Done(Called(s, cfg, answer).chunks), cfg)
          < Waiting(s.log[..i + 1], Done(s.chunks), cfg)
  {
    var log, done, prefix := s.log, Done(s.chunks), s.log[..i + 1];
    assert prefix[..i] == log[..i] && prefix[i] == log[i];
    FaithfulBlanksOpen(s, cfg);
    var j := FirstIsTaken(log, done, cfg, i + 1);
    DoneGrows(s, cfg, answer);
    assert prefix[j] == log[j] && log[j] in prefix;
    WaitingShrinks(prefix, done, Done(Called(s, cfg, answer).chunks), cfg);
  }

  lemma {:induction false} WaitingBound(log: seq<LogRow>, done: set<int>, cfg: Config)
    ensures Waiting(log, done, cfg) <= |log|
  {
    if log != [] { WaitingBound(log[..|log| - 1], done, cfg); }
  }

  lemma WaitingLast(log: seq<LogRow>, done: set<int>, cfg: Config, i: nat)
    requires i < |log| && Waits(log[i], done, cfg)
    ensures Waiting(log[..i + 1], done, cfg) >= 1
  {
    assert log[..i + 1][..i] == log[..i];
  }

  /** Rows before `i` are used up one by one. */
  lemma {:induction false} RunAdvances(s: State, steps: seq<Step>, cfg: Config, i: nat)
    requires Faithful(s, cfg) && i < |s.log| && Indexable(s.log[i], cfg) && Blanks(s.log[..i], cfg) < cfg.batchSize
    ensures s.log[i].id in Done(Run(s, steps, cfg).chunks)
         || Waiting(s.log[..i + 1], Done(Run(s, steps, cfg).chunks), cfg) + Answered(s, steps, cfg) <= i + 1
  {
    if steps == [] {
      WaitingBound(s.log[..i + 1], Done(s.chunks), cfg);
    } else {
      var front, last := steps[..|steps| - 1], steps[|steps| - 1];
      RunAdvances(s, front, cfg, i);
      AlwaysFaithful(s, front, cfg);
      var t := Run(s, front, cfg);
      assert t.log[i] == s.log[i] && t.log[..i] == s.log[..i] && t.log[..i + 1] == s.log[..i + 1];
      if last.Call? {
        DoneGrows(t, cfg, last.answer);
        if Due(t, cfg) == [] || Usable(t, cfg, last.answer) {
          if s.log[i].id !in Done(t.chunks) { CallAdvances(t, cfg, last.answer, i); }
        }
      }
    }
  }

  /** A row behind `batchSize` blanks, or without text, never gets a chunk. */
  lemma {:induction false} NeverTaken(s: State, steps: seq<Step>, cfg: Config, i: nat)
    requires Faithful(s, cfg) && i < |s.log| && s.log[i].id !in Done(s.chunks)
    requires !Indexable(s.log[i], cfg) || Blanks(s.log[..i], cfg) >= cfg.batchSize
    ensures s.log[i].id !in Done(Run(s, steps, cfg).chunks)
  {
    if steps != [] {
      var front, last := steps[..|steps| - 1], steps[|steps| - 1];
      NeverTaken(s, front, cfg, i);
      AlwaysFaithful(s, front, cfg);
      var t := Run(s, front, cfg);
      assert t.log[i] == s.log[i] && t.log[..i] == s.log[..i];
      if last.Call? {
        DoneGrows(t, cfg, last.answer);
        FaithfulBlanksOpen(t, cfg);
        BlanksOpenPrefix(t.log, Done(t.chunks), cfg, i);
        PendingSplit(t.log[..i], Done(t.chunks), cfg);
        CallTakes(t.log, Done(t.chunks), cfg, i);
      }
    }
  }

  /** After more answered calls than there are rows before it, a row has a chunk exactly when it has
      text and fewer than `batchSize` blank rows of the configured types come before it. Rows may be
      appended and calls may fail at any time. */
  lemma IndexedIff(s: State, steps: seq<Step>, cfg: Config, i: nat)
    requires Faithful(s, cfg) && i < |s.log| && s.log[i].id !in Done(s.chunks) && Answered(s, steps, cfg) > i
    ensures s.log[i].id in Done(Run(s, steps, cfg).chunks)
       <==> Indexable(s.log[i], cfg) && Blanks(s.log[..i], cfg) < cfg.batchSize
  {
    if Indexable(s.log[i], cfg) && Blanks(s.log[..i], cfg) < cfg.batchSize {
      RunAdvances(s, steps, cfg, i);
      if s.log[i].id !in Done(Run(s, steps, cfg).chunks) {
        WaitingLast(s.log, Done(Run(s, steps, cfg).chunks), cfg, i);
        assert false;
      }
    } else {
      NeverTaken(s, steps, cfg, i);
    }
  }

  /** With fewer than `batchSize` blanks in all, enough answered calls give every row that has text
      exactly one chunk, and that chunk holds the text. */
  lemma Drains(s: State, steps: seq<Step>, cfg: Config, i: nat) returns (k: nat)
    requires Faithful(s, cfg) && Blanks(s.log, cfg) < cfg.batchSize && Answered(s, steps, cfg) >= |s.log|
    requires i < |s.log| && Indexable(s.log[i], cfg)
    ensures var chunks := Run(s, steps, cfg).chunks;
            && k < |chunks| && Explains(s.log[i], chunks[k], cfg)
            && forall m :: 0 <= m < |chunks| && chunks[m].id == s.log[i].id ==> m == k
  {
    AlwaysFaithful(s, steps, cfg);
    var t := Run(s, steps, cfg);
    CountsMonotone(s.log, {}, cfg, i);
    if s.log[i].id !in Done(s.chunks) {
      IndexedIff(s, steps, cfg, i);
    } else {
      assert forall c :: c in s.chunks ==> c in t.chunks;
    }
    var c :| c in t.chunks && c.id == s.log[i].id;
    k :| 0 <= k < |t.chunks| && t.chunks[k] == c;
    var r :| r in t.log && Explains(r, c, cfg);
    assert s.log[i] == t.log[i];
    SameRow(t.log, r, s.log[i]);
  }
}
