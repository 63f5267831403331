/** Small shared vocabulary: optional values and a few facts about sequences. */
module Prelude {

  datatype Option<+T> = None | Some(value: T)

  function MaxReal(a: real, b: real): (m: real)
    ensures m >= a && m >= b && (m == a || m == b)
  {
    if a < b then b else a
  }

  function MinReal(a: real, b: real): (m: real)
    ensures m <= a && m <= b && (m == a || m == b)
  {
    if b < a then b else a
  }

  predicate Distinct<T(==)>(s: seq<T>) {
    forall i, j :: 0 <= i < j < |s| ==> s[i] != s[j]
  }

  /** All the elements of `ss`, in order. */
  function Flat<T>(ss: seq<seq<T>>): seq<T> {
    if ss == [] then [] else Flat(ss[..|ss| - 1]) + ss[|ss| - 1]
  }

  lemma FlatSnoc<T>(ss: seq<seq<T>>, s: seq<T>)
    ensures Flat(ss + [s]) == Flat(ss) + s
  {
    assert (ss + [s])[..|ss|] == ss;
  }

  lemma {:induction false} FlatConcat<T>(xs: seq<seq<T>>, ys: seq<seq<T>>)
    ensures Flat(xs + ys) == Flat(xs) + Flat(ys)
  {
    if ys == [] {
      assert xs + ys == xs;
    } else {
      var front, last := ys[..|ys| - 1], ys[|ys| - 1];
      FlatConcat(xs, front);
      FlatSnoc(xs + front, last);
      FlatSnoc(front, last);
      assert xs + ys == (xs + front) + [last] && ys == front + [last];
      Regroup(Flat(xs), Flat(front), last);
    }
  }

  lemma Regroup<T>(a: seq<T>, b: seq<T>, c: seq<T>)
    ensures (a + b) + c == a + (b + c)
  {
  }
}
