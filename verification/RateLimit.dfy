/** The login throttle: a lazily pruned queue of failures per client, against the full history. */
module RateLimit {
  import opened Prelude

  /** Drop expired failures from the front only. */
  function Pruned(bucket: seq<real>, now: real, window: real): seq<real> {
    if bucket == [] || now - bucket[0] <= window then bucket else Pruned(bucket[1..], now, window)
  }

  /** One client's queue, and every failure ever recorded for it. */
  datatype Track = Track(bucket: seq<real>, all: seq<real>)

  function Touched(t: Track, now: real, window: real): Track {
    t.(bucket := Pruned(t.bucket, now, window))
  }

  function Failed(t: Track, now: real, window: real): Track {
    Track(Pruned(t.bucket, now, window) + [now], t.all + [now])
  }

  /** `None` is the IndexError of an empty queue that counts as full. */
  function RetryAfter(bucket: seq<real>, now: real, maxFailures: int, window: real): Option<real> {
    if |bucket| < maxFailures then Some(0.0)
    else if bucket == [] then None
    else Some(MaxReal(0.0, window - (now - bucket[0])))
  }

  /** A login: the clock is read for the check, and again for what follows it. */
  datatype Attempt = Attempt(matches: bool, at: real, later: real)

  datatype Outcome = Welcome | Invalid | Throttled(seconds: int) | Crashed

  function Login(t: Track, a: Attempt, maxFailures: int, window: real): (Track, Outcome) {
    var checked := Touched(t, a.at, window);
    if |checked.bucket| >= maxFailures then
      var again := Touched(checked, a.later, window);
      var wait := RetryAfter(again.bucket, a.later, maxFailures, window);
      (again, if wait.None? then Crashed else Throttled(wait.value.Floor + 1))
    else if !a.matches then (Failed(checked, a.later, window), Invalid)
    else (checked, Welcome)
  }

  class LoginRateLimiter {
    const maxFailures: int
    const window: real
    var failures: map<string, seq<real>>
    ghost var history: map<string, seq<real>>

    constructor (maxFailures: int, window: real)
      ensures this.maxFailures == maxFailures && this.window == window
      ensures forall key :: TrackOf(key) == Track([], [])
    {
      this.maxFailures, this.window := maxFailures, window;
      failures, history := map[], map[];
    }

    ghost function TrackOf(key: string): Track
      reads this
    {
      Track(if key in failures then failures[key] else [], if key in history then history[key] else [])
    }

    method Prune(key: string, now: real) returns (bucket: seq<real>)
      modifies this
      ensures TrackOf(key) == Touched(old(TrackOf(key)), now, window) && bucket == TrackOf(key).bucket
      ensures forall k :: k != key ==> TrackOf(k) == old(TrackOf(k))
    {
      bucket := if key in failures then failures[key] else [];
      while bucket != [] && now - bucket[0] > window
        invariant Pruned(bucket, now, window) == Touched(old(TrackOf(key)), now, window).bucket
        invariant failures == old(failures) && history == old(history)
        decreases |bucket|
      {
        bucket := bucket[1..];
      }
      failures := failures[key := bucket];
    }

    method Check(key: string, now: real) returns (ok: bool)
      modifies this
      ensures TrackOf(key) == Touched(old(TrackOf(key)), now, window)
      ensures ok <==> |TrackOf(key).bucket| < maxFailures
      ensures forall k :: k != key ==> TrackOf(k) == old(TrackOf(k))
    {
      var bucket := Prune(key, now);
      ok := |bucket| < maxFailures;
    }

    method RecordFailure(key: string, now: real)
      modifies this
      ensures TrackOf(key) == Failed(old(TrackOf(key)), now, window)
      ensures forall k :: k != key ==> TrackOf(k) == old(TrackOf(k))
    {
      ghost var all := TrackOf(key).all;
      var bucket := Prune(key, now);
      failures := failures[key := bucket + [now]];
      history := history[key := all + [now]];
    }

    method RetryAfterSeconds(key: string, now: real) returns (seconds: Option<real>)
      modifies this
      ensures TrackOf(key) == Touched(old(TrackOf(key)), now, window)
      ensures seconds == RetryAfter(TrackOf(key).bucket, now, maxFailures, window)
      ensures forall k :: k != key ==> TrackOf(k) == old(TrackOf(k))
    {
      var bucket := Prune(key, now);
      if |bucket| < maxFailures { return Some(0.0); }
      if bucket == [] { return None; }
      var oldest := bucket[0];
      seconds := Some(MaxReal(0.0, window - (now - oldest)));
    }

    method PostLogin(client: string, a: Attempt) returns (outcome: Outcome)
      modifies this
      ensures (TrackOf(client), outcome) == Login(old(TrackOf(client)), a, maxFailures, window)
      ensures forall k :: k != client ==> TrackOf(k) == old(TrackOf(k))
    {
      var ok := Check(client, a.at);
      if !ok {
        var wait := RetryAfterSeconds(client, a.later);
        return if wait.None? then Crashed else Throttled(wait.value.Floor + 1);
      }
      if !a.matches {
        RecordFailure(client, a.later);
        return Invalid;
      }
      outcome := Welcome;
    }
  }

  // ---------------------------------------------------------------- the queue is the recent history

  predicate InOrder(s: seq<real>) {
    forall i, j :: 0 <= i < j < |s| ==> s[i] <= s[j]
  }

  predicate UpTo(s: seq<real>, last: real) {
    forall i :: 0 <= i < |s| ==> s[i] <= last
  }

  lemma Snoc(s: seq<real>, last: real, f: real)
    requires InOrder(s) && UpTo(s, last) && last <= f
    ensures InOrder(s + [f]) && UpTo(s + [f], f)
  {
  }

  /** The failures `f` with `now - f <= window`. */
  function Recent(all: seq<real>, now: real, window: real): seq<real> {
    if all == [] then []
    else
      Recent(all[..|all| - 1], now, window) + if now - all[|all| - 1] <= window then [all[|all| - 1]] else []
  }

  /** From `last` on, pruning the queue gives the recent part of the whole history. */
  ghost predicate Agrees(t: Track, last: real, window: real) {
    && InOrder(t.all) && InOrder(t.bucket)
    && UpTo(t.all, last) && UpTo(t.bucket, last)
    && (forall now :: now >= last ==> Pruned(t.bucket, now, window) == Recent(t.all, now, window))
  }

  lemma {:induction false} PrunedSuffix(b: seq<real>, now: real, window: real)
    ensures InOrder(b) ==> InOrder(Pruned(b, now, window))
    ensures forall last :: UpTo(b, last) ==> UpTo(Pruned(b, now, window), last)
    ensures Pruned(b, now, window) != [] ==> now - Pruned(b, now, window)[0] <= window
    ensures |Pruned(b, now, window)| <= |b|
  {
    if b != [] && now - b[0] > window {
      PrunedSuffix(b[1..], now, window);
    }
  }

  /** Pruning early changes nothing for a later pruning. */
  lemma {:induction false} PrunedTwice(b: seq<real>, now: real, later: real, window: real)
    requires now <= later
    ensures Pruned(Pruned(b, now, window), later, window) == Pruned(b, later, window)
  {
    if b != [] && now - b[0] > window {
      PrunedTwice(b[1..], now, later, window);
    }
  }

  lemma {:induction false} PrunedSnoc(b: seq<real>, f: real, now: real, window: real)
    requires UpTo(b, f)
    ensures Pruned(b + [f], now, window)
         == Pruned(b, now, window) + if now - f <= window then [f] else []
  {
    if b != [] {
      assert (b + [f])[1..] == b[1..] + [f];
      if now - b[0] > window { PrunedSnoc(b[1..], f, now, window); }
    }
  }

  lemma RecentSnoc(all: seq<real>, f: real, now: real, window: real)
    ensures Recent(all + [f], now, window) == Recent(all, now, window) + if now - f <= window then [f] else []
  {
    assert (all + [f])[..|all|] == all;
  }

  lemma TouchedAgrees(t: Track, last: real, at: real, window: real)
    requires Agrees(t, last, window) && last <= at
    ensures Agrees(Touched(t, at, window), at, window)
  {
    PrunedSuffix(t.bucket, at, window);
    forall now | now >= at
      ensures Pruned(Touched(t, at, window).bucket, now, window) == Recent(t.all, now, window)
    {
      PrunedTwice(t.bucket, at, now, window);
    }
  }

  lemma FailedAgrees(t: Track, last: real, at: real, window: real)
    requires Agrees(t, last, window) && last <= at
    ensures Agrees(Failed(t, at, window), at, window)
  {
    var b, after := Pruned(t.bucket, at, window), Failed(t, at, window);
    assert InOrder(b) && UpTo(b, last) by { PrunedSuffix(t.bucket, at, window); }
    Snoc(t.all, last, at);
    Snoc(b, last, at);
    forall now | now >= at ensures Pruned(after.bucket, now, window) == Recent(after.all, now, window) {
      RecordedAgrees(t, last, at, now, window);
    }
  }

  lemma RecordedAgrees(t: Track, last: real, at: real, now: real, window: real)
    requires Agrees(t, last, window) && last <= at <= now
    ensures Pruned(Pruned(t.bucket, at, window) + [at], now, window) == Recent(t.all + [at], now, window)
  {
    PrunedSuffix(t.bucket, at, window);
    assert UpTo(Pruned(t.bucket, at, window), last);
    PrunedTwice(t.bucket, at, now, window);
    PrunedSnoc(Pruned(t.bucket, at, window), at, now, window);
    RecentSnoc(t.all, at, now, window);
  }

  datatype Op = Check(at: real) | Retry(at: real) | Fail(at: real)

  function Do(t: Track, op: Op, window: real): Track {
    if op.Fail? then Failed(t, op.at, window) else Touched(t, op.at, window)
  }

  function Run(ops: seq<Op>, window: real): Track {
    if ops == [] then Track([], []) else Do(Run(ops[..|ops| - 1], window), ops[|ops| - 1], window)
  }

  function LastAt(ops: seq<Op>): real
    requires ops != []
  {
    ops[|ops| - 1].at
  }

  predicate ClockRuns(ops: seq<Op>) {
    forall i, j :: 0 <= i < j < |ops| ==> ops[i].at <= ops[j].at
  }

  lemma {:induction false} RunAgrees(ops: seq<Op>, last: real, window: real)
    requires ClockRuns(ops) && (ops != [] ==> LastAt(ops) <= last)
    ensures Agrees(Run(ops, window), last, window)
  {
    if ops != [] {
      var front, at := ops[..|ops| - 1], LastAt(ops);
      RunAgrees(front, at, window);
      var t := Run(front, window);
      if ops[|ops| - 1].Fail? { FailedAgrees(t, at, at, window); } else { TouchedAgrees(t, at, at, window); }
      AgreesLater(Run(ops, window), at, last, window);
    }
  }

  lemma AgreesLater(t: Track, last: real, later: real, window: real)
    requires Agrees(t, last, window) && last <= later
    ensures Agrees(t, later, window)
  {
  }

  /** The failures that the operations recorded, in order. */
  function FailTimes(ops: seq<Op>): seq<real> {
    if ops == [] then []
    else FailTimes(ops[..|ops| - 1]) + if ops[|ops| - 1].Fail? then [ops[|ops| - 1].at] else []
  }

  lemma {:induction false} AllIsFailTimes(ops: seq<Op>, window: real)
    ensures Run(ops, window).all == FailTimes(ops)
  {
    if ops != [] { AllIsFailTimes(ops[..|ops| - 1], window); }
  }

  /** After any operations at times that never fall, a check answers yes exactly when fewer than the
      allowed number of recorded failures are at most one window old. */
  lemma CheckIffFew(ops: seq<Op>, now: real, maxFailures: int, window: real)
    requires ClockRuns(ops + [Check(now)])
    ensures |Do(Run(ops, window), Check(now), window).bucket| < maxFailures
       <==> |Recent(FailTimes(ops), now, window)| < maxFailures
  {
    assert forall i :: 0 <= i < |ops| ==> (ops + [Check(now)])[i] == ops[i];
    assert ops != [] ==> (ops + [Check(now)])[|ops| - 1].at <= (ops + [Check(now)])[|ops|].at;
    RunAgrees(ops, now, window);
    AllIsFailTimes(ops, window);
  }

  // ---------------------------------------------------------------- logins

  function Logins(tries: seq<Attempt>, maxFailures: int, window: real): Track {
    if tries == [] then Track([], [])
    else Login(Logins(tries[..|tries| - 1], maxFailures, window), tries[|tries| - 1], maxFailures, window).0
  }

  /** Nothing is awaited inside a login, so logins do not overlap. */
  predicate Sequential(tries: seq<Attempt>, last: real) {
    && (forall i :: 0 <= i < |tries| ==> tries[i].at <= tries[i].later <= last)
    && (forall i, j :: 0 <= i < j < |tries| ==> tries[i].later <= tries[j].at)
  }

  function AtLeastZero(n: int): (m: nat)
    ensures m >= n && (m == n || m == 0)
  {
    if n < 0 then 0 else n
  }

  /** Failures in the closed window that starts at `lo`. */
  function CountIn(all: seq<real>, lo: real, window: real): nat {
    if all == [] then 0
    else CountIn(all[..|all| - 1], lo, window) + if lo <= all[|all| - 1] <= lo + window then 1 else 0
  }

  lemma CountSnoc(all: seq<real>, f: real, lo: real, window: real)
    ensures CountIn(all + [f], lo, window) == CountIn(all, lo, window) + if lo <= f <= lo + window then 1 else 0
  {
    assert (all + [f])[..|all|] == all;
  }

  lemma {:induction false} CountAtMostRecent(all: seq<real>, lo: real, now: real, window: real)
    requires now - lo <= window
    ensures CountIn(all, lo, window) <= |Recent(all, now, window)|
  {
    if all != [] { CountAtMostRecent(all[..|all| - 1], lo, now, window); }
  }

  ghost predicate NoFullWindow(all: seq<real>, maxFailures: int, window: real) {
    forall lo :: CountIn(all, lo, window) <= AtLeastZero(maxFailures)
  }

  lemma RecordedFits(all: seq<real>, at: real, later: real, maxFailures: int, window: real)
    requires NoFullWindow(all, maxFailures, window) && at <= later && |Recent(all, at, window)| < maxFailures
    ensures NoFullWindow(all + [later], maxFailures, window)
  {
    forall lo ensures CountIn(all + [later], lo, window) <= AtLeastZero(maxFailures) {
      CountSnoc(all, later, lo, window);
      if lo <= later <= lo + window { CountAtMostRecent(all, lo, at, window); }
    }
  }

  /** What logins keep: no window holds more failures than allowed, and neither does the queue. */
  ghost predicate Throttles(t: Track, last: real, maxFailures: int, window: real) {
    && Agrees(t, last, window) && |t.bucket| <= AtLeastZero(maxFailures)
    && NoFullWindow(t.all, maxFailures, window)
  }

  lemma TouchedThrottles(t: Track, last: real, at: real, maxFailures: int, window: real)
    requires Throttles(t, last, maxFailures, window) && last <= at
    ensures Throttles(Touched(t, at, window), at, maxFailures, window)
  {
    TouchedAgrees(t, last, at, window);
    PrunedSuffix(t.bucket, at, window);
  }

  lemma FailedThrottles(t: Track, last: real, at: real, later: real, maxFailures: int, window: real)
    requires Throttles(t, last, maxFailures, window) && last <= at <= later
    requires |Pruned(t.bucket, at, window)| < maxFailures
    ensures Throttles(Failed(Touched(t, at, window), later, window), later, maxFailures, window)
  {
    var checked := Touched(t, at, window);
    assert |checked.bucket| == |Recent(t.all, at, window)|;
    RecordedFits(t.all, at, later, maxFailures, window);
    TouchedAgrees(t, last, at, window);
    FailedAgrees(checked, at, later, window);
    PrunedSuffix(checked.bucket, later, window);
  }

  lemma LoginKeepsThrottles(t: Track, last: real, a: Attempt, maxFailures: int, window: real)
    requires Throttles(t, last, maxFailures, window) && last <= a.at <= a.later
    ensures Throttles(Login(t, a, maxFailures, window).0, a.later, maxFailures, window)
  {
    var checked := Touched(t, a.at, window);
    TouchedThrottles(t, last, a.at, maxFailures, window);
    if |checked.bucket| >= maxFailures {
      TouchedThrottles(checked, a.at, a.later, maxFailures, window);
    } else if !a.matches {
      FailedThrottles(t, last, a.at, a.later, maxFailures, window);
    } else {
      AgreesLater(checked, a.at, a.later, window);
    }
  }

  /** Whatever logins come in one after the other, no closed interval as long as the window holds more
      recorded failures than are allowed. */
  lemma {:induction false} LoginsThrottle(tries: seq<Attempt>, last: real, maxFailures: int, window: real)
    requires Sequential(tries, last)
    ensures Throttles(Logins(tries, maxFailures, window), last, maxFailures, window)
  {
    if tries != [] {
      var front, a := tries[..|tries| - 1], tries[|tries| - 1];
      LoginsThrottle(front, a.at, maxFailures, window);
      LoginKeepsThrottles(Logins(front, maxFailures, window), a.at, a, maxFailures, window);
      AgreesLater(Logins(tries, maxFailures, window), a.later, last, window);
    }
  }

  /** A login crashes exactly when the limit is not positive. */
  lemma CrashesIff(tries: seq<Attempt>, a: Attempt, maxFailures: int, window: real)
    requires Sequential(tries, a.at) && a.at <= a.later
    ensures Login(Logins(tries, maxFailures, window), a, maxFailures, window).1.Crashed? <==> maxFailures <= 0
  {
    LoginsThrottle(tries, a.at, maxFailures, window);
    var t := Logins(tries, maxFailures, window);
    PrunedSuffix(t.bucket, a.at, window);
    PrunedSuffix(Pruned(t.bucket, a.at, window), a.later, window);
  }

  /** A full queue has room again exactly when its entry number `max` from the back has expired. */
  lemma {:induction false} RoomIff(b: seq<real>, now: real, maxFailures: int, window: real)
    requires InOrder(b) && 1 <= maxFailures <= |b|
    ensures |Pruned(b, now, window)| < maxFailures <==> now - b[|b| - maxFailures] > window
  {
    if now - b[0] > window {
      if maxFailures < |b| {
        RoomIff(b[1..], now, maxFailures, window);
      } else {
        PrunedSuffix(b[1..], now, window);
      }
    } else {
      assert b[0] <= b[|b| - maxFailures] || |b| == maxFailures;
    }
  }

  /** After any logins, waiting the advertised whole number of seconds without a new failure lets the
      client in again; waiting exactly the positive remainder that it is rounded from does not. */
  lemma AdviceIsRight(tries: seq<Attempt>, at: real, maxFailures: int, window: real)
    requires Sequential(tries, at) && maxFailures >= 1
    ensures var t := Touched(Logins(tries, maxFailures, window), at, window);
            var wait := RetryAfter(t.bucket, at, maxFailures, window);
            && wait.Some? && wait.value >= 0.0
            && |Pruned(t.bucket, at + (wait.value.Floor + 1) as real, window)| < maxFailures
            && (wait.value > 0.0 ==> |Pruned(t.bucket, at + wait.value, window)| >= maxFailures)
  {
    LoginsThrottle(tries, at, maxFailures, window);
    var before := Logins(tries, maxFailures, window);
    var t := Touched(before, at, window);
    PrunedSuffix(before.bucket, at, window);
    var wait := RetryAfter(t.bucket, at, maxFailures, window).value;
    PrunedSuffix(t.bucket, at + (wait.Floor + 1) as real, window);
    if |t.bucket| >= maxFailures {
      assert wait == window - (at - t.bucket[0]);
      RoomIff(t.bucket, at + (wait.Floor + 1) as real, maxFailures, window);
      RoomIff(t.bucket, at + wait, maxFailures, window);
    }
  }

  // ---------------------------------------------------------------- what a client is told

  /** After any logins: with fewer recent failures than allowed a right token is welcome and a wrong one is
      invalid, and only that is recorded; otherwise the client is throttled whatever its token (or, with no
      positive limit, the login raises). */
  lemma LoginOutcome(tries: seq<Attempt>, a: Attempt, maxFailures: int, window: real)
    requires Sequential(tries, a.at) && a.at <= a.later
    ensures var t := Logins(tries, maxFailures, window); var (after, told) := Login(t, a, maxFailures, window);
            var few := |Recent(t.all, a.at, window)| < maxFailures;
            && (told == Welcome <==> few && a.matches)
            && (told == Invalid <==> few && !a.matches)
            && (told.Throttled? <==> !few && maxFailures >= 1)
            && after.all == t.all + if told == Invalid then [a.later] else []
  {
    LoginsThrottle(tries, a.at, maxFailures, window);
    CrashesIff(tries, a, maxFailures, window);
  }

  /** The seconds a throttled client is told: a login after that wait is not throttled, and one a second
      earlier still is, if any wait was left. */
  lemma ThrottledAdvice(tries: seq<Attempt>, a: Attempt, maxFailures: int, window: real, next: Attempt)
    requires Sequential(tries, a.at) && a.at <= a.later && maxFailures >= 1
    requires Login(Logins(tries, maxFailures, window), a, maxFailures, window).1.Throttled?
    ensures var (after, told) := Login(Logins(tries, maxFailures, window), a, maxFailures, window);
            && told.seconds >= 1
            && (next.at == a.later + told.seconds as real ==> !Login(after, next, maxFailures, window).1.Throttled?)
            && (told.seconds > 1 && next.at == a.later + (told.seconds - 1) as real ==>
                  Login(after, next, maxFailures, window).1.Throttled?)
  {
    var t := Logins(tries, maxFailures, window);
    LoginsThrottle(tries, a.at, maxFailures, window);
    PrunedSuffix(t.bucket, a.at, window);
    PrunedTwice(t.bucket, a.at, a.later, window);
    PrunedSuffix(t.bucket, a.later, window);
    var b := Pruned(t.bucket, a.later, window);
    PrunedSuffix(b, next.at, window);
    PrunedSuffix(Pruned(b, next.at, window), next.later, window);
    if |b| >= maxFailures { RoomIff(b, next.at, maxFailures, window); }
  }
}
