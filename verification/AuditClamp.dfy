/** Size clamping of audit payloads: every overlong string is cut and marked, nothing else changes. */
module AuditClamp {
  import opened Prelude

  /** A decoded payload. */
  datatype Value =
    | Str(s: string)
    | Scalar(atom: Atom)
    | Dict(entries: seq<Entry>)
    | List(items: seq<Value>)
    | Tuple(items: seq<Value>)

  datatype Entry = Entry(key: string, val: Value)

  datatype Atom = Null | Flag(b: bool) | Number(x: real)

  /** Dictionary lookup. */
  function Get(entries: seq<Entry>, key: string): Option<Value> {
    if entries == [] then None
    else if entries[|entries| - 1].key == key then Some(entries[|entries| - 1].val)
    else Get(entries[..|entries| - 1], key)
  }

  /** The dictionary's value for `key` is `v`; where a key is listed twice the later entry counts. */
  ghost predicate Maps(entries: seq<Entry>, key: string, v: Value) {
    exists i :: 0 <= i < |entries| && entries[i] == Entry(key, v)
                && forall j :: i < j < |entries| ==> entries[j].key != key
  }

  lemma {:induction false} GetIs(entries: seq<Entry>, key: string)
    ensures forall v :: Maps(entries, key, v) <==> Get(entries, key) == Some(v)
    ensures Get(entries, key) == None <==> forall i :: 0 <= i < |entries| ==> entries[i].key != key
  {
    if entries != [] {
      var front, last := entries[..|entries| - 1], entries[|entries| - 1];
      GetIs(front, key);
      assert entries == front + [last];
      MapsSnoc(front, last, key);
    }
  }

  lemma MapsSnoc(front: seq<Entry>, last: Entry, key: string)
    ensures forall v :: Maps(front + [last], key, v) <==> if last.key == key then v == last.val else Maps(front, key, v)
  {
    var all, n := front + [last], |front|;
    assert forall j :: 0 <= j < n ==> front[j] == all[j];
    forall v ensures Maps(all, key, v) <==> if last.key == key then v == last.val else Maps(front, key, v) {
      if Maps(all, key, v) {
        var i :| 0 <= i <= n && all[i] == Entry(key, v) && forall j :: i < j <= n ==> all[j].key != key;
        if i < n { assert all[n] == last && front[i] == all[i]; }
      }
      if last.key == key { assert all[n] == Entry(key, last.val); }
      else if Maps(front, key, v) {
        var i :| 0 <= i < n && front[i] == Entry(key, v) && forall j :: i < j < n ==> front[j].key != key;
        assert all[i] == Entry(key, v);
      }
    }
  }

  /** Decimal rendering of a natural number, as string formatting writes it. */
  function Decimal(n: nat): (s: string)
    ensures |s| >= 1
  {
    if n < 10 then [Digit(n)] else Decimal(n / 10) + [Digit(n % 10)]
  }

  function Digit(d: nat): char
    requires d < 10
  {
    "0123456789"[d]
  }

  const MARKER_HEAD := "\U{2026} [truncated, "
  const MARKER_TAIL := " chars total]"

  function Marker(total: nat): string {
    MARKER_HEAD + Decimal(total) + MARKER_TAIL
  }

  function ClampString(s: string, maxChars: nat): string {
    if |s| <= maxChars then s
    else
      var marker := Marker(|s|);
      var keep := if maxChars < |marker| then 0 else maxChars - |marker|;
      s[..keep] + marker
  }

  function Clamp(v: Value, maxChars: nat): Value
    decreases v
  {
    match v
    case Str(s) => Str(ClampString(s, maxChars))
    case Scalar(_) => v
    case Dict(es) =>
      Dict(seq(|es|, i requires 0 <= i < |es| => Entry(es[i].key, Clamp(es[i].val, maxChars))))
    case List(xs) => List(seq(|xs|, i requires 0 <= i < |xs| => Clamp(xs[i], maxChars)))
    case Tuple(xs) => Tuple(seq(|xs|, i requires 0 <= i < |xs| => Clamp(xs[i], maxChars)))
  }

  /** Some string anywhere in `v` is longer than `bound`. */
  predicate Overlong(v: Value, bound: nat)
    decreases v
  {
    match v
    case Str(s) => |s| > bound
    case Scalar(_) => false
    case Dict(es) => exists i :: 0 <= i < |es| && Overlong(es[i].val, bound)
    case List(xs) => exists i :: 0 <= i < |xs| && Overlong(xs[i], bound)
    case Tuple(xs) => exists i :: 0 <= i < |xs| && Overlong(xs[i], bound)
  }

  /** Some string needs cutting and the marker it needs does not itself fit in `maxChars`. */
  predicate MarkerTooLong(v: Value, maxChars: nat)
    decreases v
  {
    match v
    case Str(s) => |s| > maxChars && 27 + |Decimal(|s|)| > maxChars
    case Scalar(_) => false
    case Dict(es) => exists i :: 0 <= i < |es| && MarkerTooLong(es[i].val, maxChars)
    case List(xs) => exists i :: 0 <= i < |xs| && MarkerTooLong(xs[i], maxChars)
    case Tuple(xs) => exists i :: 0 <= i < |xs| && MarkerTooLong(xs[i], maxChars)
  }

  /** What a reader of the stored row may rely on for one string: an untouched original, or the
      longest prefix that still leaves room for the marker, followed by the marker. */
  ghost predicate CutOf(s: string, t: string, maxChars: nat) {
    if |s| <= maxChars then t == s
    else
      exists k :: 0 <= k <= |s| && t == s[..k] + Marker(|s|)
                  && (k > 0 ==> |t| == maxChars)
                  && (k == 0 ==> |Marker(|s|)| >= maxChars)
  }

  /** `w` has the shape, keys and scalars of `v`, and each string is the cut of its counterpart. */
  ghost predicate ClampedFrom(v: Value, w: Value, maxChars: nat)
    decreases v
  {
    match (v, w)
    case (Str(s), Str(t)) => CutOf(s, t, maxChars)
    case (Scalar(a), Scalar(b)) => a == b
    case (Dict(es), Dict(fs)) =>
      |es| == |fs| && forall i :: 0 <= i < |es| ==>
        es[i].key == fs[i].key && ClampedFrom(es[i].val, fs[i].val, maxChars)
    case (List(xs), List(ys)) =>
      |xs| == |ys| && forall i :: 0 <= i < |xs| ==> ClampedFrom(xs[i], ys[i], maxChars)
    case (Tuple(xs), Tuple(ys)) =>
      |xs| == |ys| && forall i :: 0 <= i < |xs| ==> ClampedFrom(xs[i], ys[i], maxChars)
    case _ => false
  }

  // ---------------------------------------------------------------- numerals

  function Parse(s: string): nat {
    if s == [] then 0
    else 10 * Parse(s[..|s| - 1]) + DigitValue(s[|s| - 1])
  }

  function DigitValue(c: char): nat {
    if '0' <= c <= '9' then (c - '0') as nat else 0
  }

  /** The number in the marker can be read back, and is written without leading zeros. */
  lemma {:induction false} DecimalRoundTrip(n: nat)
    ensures Parse(Decimal(n)) == n
    ensures n > 0 ==> Decimal(n)[0] != '0'
  {
    if n < 10 {
      var s := Decimal(n);
      assert s[..|s| - 1] == [];
      assert Parse(s[..|s| - 1]) == 0;
    } else {
      DecimalRoundTrip(n / 10);
      var s := Decimal(n);
      assert s[..|s| - 1] == Decimal(n / 10);
    }
  }

  lemma MarkerLength(total: nat)
    ensures |Marker(total)| == 27 + |Decimal(total)|
  {
    assert |MARKER_HEAD| == 14;
    assert |MARKER_TAIL| == 13;
  }

  /** The marker says how long the original was, and its number can be read back. */
  lemma MarkerReads(total: nat)
    ensures var m := Marker(total); var n := |m|;
            && n > 27 && m[..14] == "\U{2026} [truncated, " && m[n - 13..] == " chars total]"
            && Parse(m[14..n - 13]) == total
  {
    DecimalRoundTrip(total);
    var m := Marker(total);
    MarkerLength(total);
    assert |MARKER_HEAD| == 14 && |MARKER_TAIL| == 13;
    assert m[14..|m| - 13] == Decimal(total);
  }

  // ---------------------------------------------------------------- strings

  lemma ClampStringCuts(s: string, maxChars: nat)
    ensures CutOf(s, ClampString(s, maxChars), maxChars)
  {
    if |s| > maxChars {
      var marker := Marker(|s|);
      var keep := if maxChars < |marker| then 0 else maxChars - |marker|;
      assert keep <= |s|;
      var t := ClampString(s, maxChars);
      assert t == s[..keep] + marker;
      if keep > 0 { assert |t| == maxChars; }
    }
  }

  /** A stored string is within the limit, or is exactly a marker that could not fit. */
  lemma CutLength(s: string, t: string, maxChars: nat)
    requires CutOf(s, t, maxChars)
    ensures |t| <= maxChars || |t| == 27 + |Decimal(|s|)|
    ensures |s| > maxChars ==> |t| >= maxChars
    ensures |t| > maxChars <==> |s| > maxChars && 27 + |Decimal(|s|)| > maxChars
  {
    MarkerLength(|s|);
  }

  // ---------------------------------------------------------------- whole payloads

  /** Keys, shape and non-strings survive, and every string is the right cut of its original. */
  lemma {:induction false} ClampKeepsShape(v: Value, maxChars: nat)
    ensures ClampedFrom(v, Clamp(v, maxChars), maxChars)
    decreases v
  {
    match v
    case Str(s) => ClampStringCuts(s, maxChars);
    case Scalar(_) =>
    case Dict(es) =>
      forall i | 0 <= i < |es| ensures ClampedFrom(es[i].val, Clamp(es[i].val, maxChars), maxChars) {
        ClampKeepsShape(es[i].val, maxChars);
      }
    case List(xs) =>
      forall i | 0 <= i < |xs| ensures ClampedFrom(xs[i], Clamp(xs[i], maxChars), maxChars) {
        ClampKeepsShape(xs[i], maxChars);
      }
    case Tuple(xs) =>
      forall i | 0 <= i < |xs| ensures ClampedFrom(xs[i], Clamp(xs[i], maxChars), maxChars) {
        ClampKeepsShape(xs[i], maxChars);
      }
  }

  /** A payload with no overlong string passes through unchanged. */
  lemma {:induction false} ClampFitting(v: Value, maxChars: nat)
    requires !Overlong(v, maxChars)
    ensures Clamp(v, maxChars) == v
    decreases v
  {
    match v
    case Str(s) =>
    case Scalar(_) =>
    case Dict(es) =>
      forall i | 0 <= i < |es| ensures Clamp(es[i].val, maxChars) == es[i].val {
        ClampFitting(es[i].val, maxChars);
      }
      assert Clamp(v, maxChars).entries == es;
    case List(xs) =>
      forall i | 0 <= i < |xs| ensures Clamp(xs[i], maxChars) == xs[i] { ClampFitting(xs[i], maxChars); }
      assert Clamp(v, maxChars).items == xs;
    case Tuple(xs) =>
      forall i | 0 <= i < |xs| ensures Clamp(xs[i], maxChars) == xs[i] { ClampFitting(xs[i], maxChars); }
      assert Clamp(v, maxChars).items == xs;
  }

  /** The clamp can only leave an overlong string behind where the marker itself does not fit. */
  lemma {:induction false} ClampedOverlong(v: Value, maxChars: nat)
    ensures Overlong(Clamp(v, maxChars), maxChars) <==> MarkerTooLong(v, maxChars)
    decreases v
  {
    match v
    case Str(s) =>
      ClampStringCuts(s, maxChars);
      CutLength(s, ClampString(s, maxChars), maxChars);
    case Scalar(_) =>
    case Dict(es) =>
      forall i | 0 <= i < |es|
        ensures Overlong(Clamp(es[i].val, maxChars), maxChars) <==> MarkerTooLong(es[i].val, maxChars)
      {
        ClampedOverlong(es[i].val, maxChars);
      }
      var fs := Clamp(v, maxChars).entries;
      assert forall i :: 0 <= i < |es| ==> fs[i].val == Clamp(es[i].val, maxChars);
      if Overlong(Clamp(v, maxChars), maxChars) {
        var i :| 0 <= i < |fs| && Overlong(fs[i].val, maxChars);
        assert MarkerTooLong(es[i].val, maxChars);
      }
      if MarkerTooLong(v, maxChars) {
        var i :| 0 <= i < |es| && MarkerTooLong(es[i].val, maxChars);
        assert Overlong(fs[i].val, maxChars);
      }
    case List(xs) => ClampedOverlongItems(xs, Clamp(v, maxChars).items, maxChars);
    case Tuple(xs) => ClampedOverlongItems(xs, Clamp(v, maxChars).items, maxChars);
  }

  lemma {:induction false} ClampedOverlongItems(xs: seq<Value>, ys: seq<Value>, maxChars: nat)
    requires |ys| == |xs| && forall i :: 0 <= i < |xs| ==> ys[i] == Clamp(xs[i], maxChars)
    ensures (exists i :: 0 <= i < |ys| && Overlong(ys[i], maxChars))
       <==> (exists i :: 0 <= i < |xs| && MarkerTooLong(xs[i], maxChars))
    decreases xs
  {
    forall i | 0 <= i < |xs|
      ensures Overlong(ys[i], maxChars) <==> MarkerTooLong(xs[i], maxChars)
    {
      ClampedOverlong(xs[i], maxChars);
    }
  }

  /** A second pass changes nothing and reports nothing, exactly when every needed marker fits. */
  lemma SecondPass(v: Value, maxChars: nat)
    ensures !Overlong(Clamp(v, maxChars), maxChars) <==> !MarkerTooLong(v, maxChars)
    ensures !MarkerTooLong(v, maxChars) ==> Clamp(Clamp(v, maxChars), maxChars) == Clamp(v, maxChars)
  {
    ClampedOverlong(v, maxChars);
    if !MarkerTooLong(v, maxChars) {
      ClampFitting(Clamp(v, maxChars), maxChars);
    }
  }

  // ---------------------------------------------------------------- the code

  /** The recursive walk. `flag[0]` is the caller's one-element list: set, never cleared. */
  method ClampValue(v: Value, maxChars: nat, flag: array<bool>) returns (w: Value)
    requires flag.Length == 1
    modifies flag
    ensures w == Clamp(v, maxChars)
    ensures flag[0] == (old(flag[0]) || Overlong(v, maxChars))
    decreases v, 1
  {
    match v
    case Str(s) =>
      if |s| <= maxChars { return v; }
      flag[0] := true;
      var marker := Marker(|s|);
      var keep := maxChars - |marker|;
      if keep < 0 { keep := 0; }
      MarkerLength(|s|);
      w := Str(s[..keep] + marker);
    case Scalar(_) =>
      w := v;
    case Dict(es) =>
      var out: seq<Entry> := [];
      for i := 0 to |es|
        invariant out == Clamp(v, maxChars).entries[..i]
        invariant flag[0] == (old(flag[0]) || exists j :: 0 <= j < i && Overlong(es[j].val, maxChars))
      {
        var c := ClampValue(es[i].val, maxChars, flag);
        out := out + [Entry(es[i].key, c)];
      }
      assert out == Clamp(v, maxChars).entries;
      w := Dict(out);
    case List(xs) =>
      var out := ClampItems(xs, maxChars, flag);
      assert out == Clamp(v, maxChars).items;
      w := List(out);
    case Tuple(xs) =>
      var out := ClampItems(xs, maxChars, flag);
      assert out == Clamp(v, maxChars).items;
      w := Tuple(out);
  }

  method ClampItems(xs: seq<Value>, maxChars: nat, flag: array<bool>) returns (out: seq<Value>)
    requires flag.Length == 1
    modifies flag
    ensures |out| == |xs| && forall i :: 0 <= i < |xs| ==> out[i] == Clamp(xs[i], maxChars)
    ensures flag[0] == (old(flag[0]) || exists i :: 0 <= i < |xs| && Overlong(xs[i], maxChars))
    decreases xs, 0
  {
    out := [];
    for i := 0 to |xs|
      invariant |out| == i && forall j :: 0 <= j < i ==> out[j] == Clamp(xs[j], maxChars)
      invariant flag[0] == (old(flag[0]) || AnyOverlong(xs, i, maxChars))
    {
      var c := ClampValue(xs[i], maxChars, flag);
      AnyOverlongStep(xs, i, maxChars);
      out := out + [c];
    }
  }

  predicate AnyOverlong(xs: seq<Value>, n: nat, bound: nat)
    requires n <= |xs|
  {
    exists i :: 0 <= i < n && Overlong(xs[i], bound)
  }

  lemma AnyOverlongStep(xs: seq<Value>, n: nat, bound: nat)
    requires n < |xs|
    ensures AnyOverlong(xs, n + 1, bound) <==> AnyOverlong(xs, n, bound) || Overlong(xs[n], bound)
  {
  }

  /** Entry point: a non-positive limit turns clamping off; the flag says whether anything was cut. */
  method ClampPayload(payload: Value, maxChars: int) returns (clamped: Value, truncated: bool)
    ensures maxChars <= 0 ==> clamped == payload && !truncated
    ensures maxChars > 0 ==> clamped == Clamp(payload, maxChars)
    ensures maxChars > 0 ==> ClampedFrom(payload, clamped, maxChars)
    ensures maxChars > 0 ==> (truncated <==> Overlong(payload, maxChars))
  {
    if maxChars <= 0 { return payload, false; }
    var flag := new bool[1] [false];
    clamped := ClampValue(payload, maxChars, flag);
    truncated := flag[0];
    ClampKeepsShape(payload, maxChars);
  }
}
