/** Stock datatypes and facts about finite sets shared by every module. */
module Prelude {
  datatype Option<+T> = None | Some(value: T)

  /** What a service call leaves behind: the new state and what the caller is told. */
  datatype Effect<+W, +R> = Effect(world: W, outcome: R)

  function Lookup<K, V>(m: map<K, V>, k: K): Option<V> {
    if k in m then Some(m[k]) else None
  }

  ghost function Members<T>(xs: seq<T>): set<T> {
    set x | x in xs
  }

  /** Sum of f over a finite set; the order of the picks does not matter (SumPick). */
  ghost function Sum<T(!new)>(xs: set<T>, f: T -> nat): nat
  {
    if xs == {} then 0 else
      var x :| x in xs;
      f(x) + Sum(xs - {x}, f)
  }

  lemma {:induction false} SumPick<T(!new)>(xs: set<T>, f: T -> nat, x: T)
    requires x in xs
    ensures Sum(xs, f) == f(x) + Sum(xs - {x}, f)
    decreases xs
  {
    var y :| y in xs && Sum(xs, f) == f(y) + Sum(xs - {y}, f);
    if y != x {
      SumPick(xs - {y}, f, x);
      SumPick(xs - {x}, f, y);
      assert xs - {y} - {x} == xs - {x} - {y};
    }
  }

  lemma {:induction false} SumAgree<T(!new)>(xs: set<T>, f: T -> nat, g: T -> nat)
    requires forall x :: x in xs ==> f(x) == g(x)
    ensures Sum(xs, f) == Sum(xs, g)
    decreases xs
  {
    if xs != {} {
      var x :| x in xs;
      SumPick(xs, f, x);
      SumPick(xs, g, x);
      SumAgree(xs - {x}, f, g);
    }
  }

  /** The members of xs that fall in class a. */
  ghost function Fiber<X(!new), A(!new)>(xs: set<X>, classOf: X -> A, a: A): set<X>
  {
    set x | x in xs && classOf(x) == a
  }

  /** Counting a finite set class by class counts it once. */
  lemma {:induction false} PartitionCount<X(!new), A(!new)>(xs: set<X>, classes: set<A>, classOf: X -> A, size: A -> nat)
    requires forall x :: x in xs ==> classOf(x) in classes
    requires forall a :: a in classes ==> size(a) == |Fiber(xs, classOf, a)|
    ensures |xs| == Sum(classes, size)
    decreases classes
  {
    if classes == {} {
      assert xs == {};
    } else {
      var a :| a in classes;
      var here := Fiber(xs, classOf, a);
      var rest := xs - here;
      forall b | b in classes - {a}
        ensures size(b) == |Fiber(rest, classOf, b)|
      {
        assert Fiber(rest, classOf, b) == Fiber(xs, classOf, b);
      }
      PartitionCount(rest, classes - {a}, classOf, size);
      SumPick(classes, size, a);
      assert xs == here + rest;
    }
  }

  /** A set that maps one-to-one into another is no larger. */
  lemma {:induction false} InjectionBound<X(!new), Y(!new)>(xs: set<X>, ys: set<Y>, f: X -> Y)
    requires forall x :: x in xs ==> f(x) in ys
    requires forall x, x' :: x in xs && x' in xs && f(x) == f(x') ==> x == x'
    ensures |xs| <= |ys|
    decreases xs
  {
    if xs != {} {
      var x :| x in xs;
      InjectionBound(xs - {x}, ys - {f(x)}, f);
    }
  }

  lemma SubsetCount<X>(xs: set<X>, ys: set<X>)
    requires xs <= ys
    ensures |xs| <= |ys|
    ensures |xs| == |ys| ==> xs == ys
  {
    assert ys == xs + (ys - xs);
  }

  lemma {:induction false} UpperBound(used: set<nat>) returns (b: nat)
    ensures forall n :: n in used ==> n < b
    decreases used
  {
    b := 0;
    if used != {} {
      var n :| n in used;
      b := UpperBound(used - {n});
      if b <= n {
        b := n + 1;
      }
      assert forall m :: m in used ==> m == n || m in used - {n};
    }
  }

  /** A database generated identifier can always be drawn afresh. */
  lemma {:induction false} FreshExists(used: set<nat>)
    ensures exists n: nat :: n !in used
  {
    var bound := UpperBound(used);
    assert bound !in used;
  }

  /** k times d, by repeated addition. */
  ghost function Times(k: nat, d: nat): nat {
    if k == 0 then 0 else Times(k - 1, d) + d
  }

  lemma {:induction false} TimesIsProduct(k: nat, d: nat)
    ensures Times(k, d) == k * d
    decreases k
  {
    if k > 0 {
      TimesIsProduct(k - 1, d);
      assert (k - 1) * d + d == k * d;
    }
  }

  lemma {:induction false} TimesMonotone(k: nat, m: nat, d: nat)
    requires k <= m
    ensures Times(k, d) <= Times(m, d)
    decreases m
  {
    if k < m {
      TimesMonotone(k, m - 1, d);
    }
  }

  lemma ProductOrder(p: real, q: real, n: real)
    requires 0.0 < n
    ensures p < q <==> p * n < q * n
    ensures p == q <==> p * n == q * n
  {
    if p * n == q * n {
      assert (p - q) * n == 0.0;
    }
  }
}
