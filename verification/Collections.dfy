/** Facts about bags kept in sequences, about set sizes, rounded quotients and reading with gaps. */
module Collections {
  import opened Wrappers

  // ---------------------------------------------------------------- bags

  function Without<T>(s: seq<T>, at: nat): seq<T>
    requires at < |s|
  {
    s[..at] + s[at + 1..]
  }

  /** The weights of a bag added up. */
  function Sum<T>(f: T -> nat, s: seq<T>): nat {
    if s == [] then 0 else Sum(f, s[..|s| - 1]) + f(s[|s| - 1])
  }

  lemma {:induction false} SumConcat<T>(f: T -> nat, a: seq<T>, b: seq<T>)
    ensures Sum(f, a + b) == Sum(f, a) + Sum(f, b)
  {
    if b == [] {
      assert a + b == a;
    } else {
      assert (a + b)[..|a + b| - 1] == a + b[..|b| - 1];
      SumConcat(f, a, b[..|b| - 1]);
    }
  }

  lemma {:induction false} SumOne<T>(f: T -> nat, x: T)
    ensures Sum(f, [x]) == f(x)
  {
    assert [x][..0] == [];
  }

  lemma {:induction false} SumAdded<T>(f: T -> nat, s: seq<T>, x: T)
    ensures Sum(f, s + [x]) == Sum(f, s) + f(x)
  {
    SumConcat(f, s, [x]);
    SumOne(f, x);
  }

  lemma {:induction false} SumWithout<T>(f: T -> nat, s: seq<T>, at: nat)
    requires at < |s|
    ensures Sum(f, s) == Sum(f, Without(s, at)) + f(s[at])
  {
    assert s == (s[..at] + [s[at]]) + s[at + 1..];
    SumConcat(f, s[..at] + [s[at]], s[at + 1..]);
    SumAdded(f, s[..at], s[at]);
    SumConcat(f, s[..at], s[at + 1..]);
  }

  lemma {:induction false} SumUpdated<T>(f: T -> nat, s: seq<T>, at: nat, x: T)
    requires at < |s|
    ensures Sum(f, s[at := x]) + f(s[at]) == Sum(f, s) + f(x)
  {
    SumWithout(f, s, at);
    SumWithout(f, s[at := x], at);
    assert Without(s[at := x], at) == Without(s, at);
  }

  lemma {:induction false} OneMore(n: int, each: int)
    ensures (n + 1) * each == n * each + each
  {}

  // ---------------------------------------------------------------- sizes

  lemma {:induction false} SubsetSize<T>(a: set<T>, b: set<T>)
    requires a <= b
    ensures |a| <= |b|
    ensures a != b ==> |a| < |b|
  {
    if a != {} {
      var x :| x in a;
      SubsetSize(a - {x}, b - {x});
      assert a == (a - {x}) + {x} && b == (b - {x}) + {x};
    }
  }

  // ---------------------------------------------------------------- quotients

  function CeilDiv(n: nat, d: nat): nat
    requires d > 0
  {
    (n + d - 1) / d
  }

  lemma {:induction false} Scaled(x: int, d: nat)
    ensures x >= 1 ==> x * d >= d
    ensures x <= -1 ==> x * d + d <= 0
  {}

  lemma {:induction false} DivUnique(n: int, d: nat, q: int, r: nat)
    requires d >= 1 && n == q * d + r && r < d
    ensures n / d == q && n % d == r
  {
    assert n == n / d * d + n % d;
    assert (n / d - q) * d == r - n % d;
    Scaled(n / d - q, d);
  }

  lemma {:induction false} CeilDivCovers(n: nat, d: nat)
    requires d > 0
    ensures n <= CeilDiv(n, d) * d
  {
    var q := (n + d - 1) / d;
    assert n + d - 1 == q * d + (n + d - 1) % d;
  }

  lemma {:induction false} CeilStep(n: nat, d: nat)
    requires d >= 1 && n > d
    ensures CeilDiv(n, d) == 1 + CeilDiv(n - d, d)
  {
    var m := n - 1;
    assert m == m / d * d + m % d;
    DivUnique(n + d - 1, d, m / d + 1, m % d);
  }

  lemma {:induction false} CeilOne(n: nat, d: nat)
    requires d >= 1 && 0 < n <= d
    ensures CeilDiv(n, d) == 1
  {
    DivUnique(n + d - 1, d, 1, n - 1);
  }

  // ---------------------------------------------------------------- reading with gaps

  /** The results of a reader on each item, without the items it skips. */
  function Collect<S, T>(read: S -> Option<T>, parts: seq<S>): seq<T> {
    if parts == [] then []
    else
      var n := |parts| - 1;
      var last := read(parts[n]);
      Collect(read, parts[..n]) + if last.Some? then [last.value] else []
  }

  lemma {:induction false} CollectAll<S, T>(read: S -> Option<T>, parts: seq<S>, results: seq<T>)
    requires |parts| == |results| && forall i :: 0 <= i < |parts| ==> read(parts[i]) == Some(results[i])
    ensures Collect(read, parts) == results
  {
    if parts != [] {
      var n := |parts| - 1;
      CollectAll(read, parts[..n], results[..n]);
      assert results == results[..n] + [results[n]];
    }
  }

  lemma {:induction false} CollectConcat<S, T>(read: S -> Option<T>, a: seq<S>, b: seq<S>)
    ensures Collect(read, a + b) == Collect(read, a) + Collect(read, b)
    decreases |b|
  {
    if b == [] {
      assert a + b == a;
    } else {
      var n := |b| - 1;
      assert (a + b)[..|a + b| - 1] == a + b[..n];
      CollectConcat(read, a, b[..n]);
    }
  }

  /** The positions that the results come from, ascending; the reader skips every other one. */
  ghost predicate ReadAt<S, T(!new)>(read: S -> Option<T>, parts: seq<S>, results: seq<T>, at: seq<nat>) {
    && |at| == |results|
    && (forall k :: 0 <= k < |at| ==> at[k] < |parts| && read(parts[at[k]]) == Some(results[k]))
    && (forall k, l :: 0 <= k < l < |at| ==> at[k] < at[l])
    && (forall i: nat :: i < |parts| && i !in at ==> read(parts[i]).None?)
  }

  lemma {:induction false} ReadOneMore<S, T(!new)>(read: S -> Option<T>, parts: seq<S>, results: seq<T>, at: seq<nat>)
    requires parts != [] && ReadAt(read, parts[..|parts| - 1], results, at)
    ensures var n := |parts| - 1;
            if read(parts[n]).Some? then ReadAt(read, parts, results + [read(parts[n]).value], at + [n])
            else ReadAt(read, parts, results, at)
  {
    var n := |parts| - 1;
    if read(parts[n]).Some? {
      forall i: nat | i < |parts| && i !in at + [n] ensures read(parts[i]).None? {
        assert i !in at && i < n;
        assert parts[..n][i] == parts[i];
      }
    } else {
      forall i: nat | i < |parts| && i !in at ensures read(parts[i]).None? {
        assert i < n ==> parts[..n][i] == parts[i];
      }
    }
  }

  lemma {:induction false} CollectInOrder<S, T(!new)>(read: S -> Option<T>, parts: seq<S>) returns (at: seq<nat>)
    ensures ReadAt(read, parts, Collect(read, parts), at)
  {
    if parts == [] {
      at := [];
    } else {
      var n := |parts| - 1;
      at := CollectInOrder(read, parts[..n]);
      ReadOneMore(read, parts, Collect(read, parts[..n]), at);
      if read(parts[n]).Some? {
        at := at + [n];
      }
    }
  }
}
