/** Small shared datatypes and facts about finite sets and maps. */
module Common {

  datatype Option<+T> = None | Some(value: T)

  /** The row stored under `k`, if there is one. */
  function Lookup<K, V>(m: map<K, V>, k: K): Option<V> {
    if k in m then Some(m[k]) else None
  }

  lemma SomeElement<T>(s: seq<T>)
    ensures s == [] || exists x :: x in s
  {
    if s != [] {
      assert s[0] in s;
    }
  }

  lemma SubsetSize<T>(a: set<T>, b: set<T>)
    requires a <= b
    ensures |a| <= |b|
    ensures |a| == |b| ==> a == b
  {
    assert b == a + (b - a);
    assert |b| == |a| + |b - a|;
    if |a| == |b| {
      assert b - a == {};
    }
  }

  function Pairs<A, B>(a: set<A>, b: set<B>): set<(A, B)> {
    set x, y | x in a && y in b :: (x, y)
  }

  ghost function Image<A, B>(s: set<A>, f: A -> B): set<B> {
    set x | x in s :: f(x)
  }

  lemma {:induction false} PairsSize<A, B>(a: set<A>, b: set<B>)
    ensures |Pairs(a, b)| <= |a| * |b|
  {
    if a == {} {
      assert Pairs(a, b) == {};
    } else {
      var x :| x in a;
      var rest, row := Pairs(a - {x}, b), set y | y in b :: (x, y);
      PairsSize(a - {x}, b);
      RowSize(x, b);
      assert Pairs(a, b) == rest + row;
      assert (|a| - 1) * |b| + |b| == |a| * |b|;
    }
  }

  lemma RowSize<A, B>(x: A, b: set<B>)
    ensures |set y | y in b :: (x, y)| <= |b|
  {
    var f := (y: B) => (x, y);
    ImageSize(b, f);
    assert (set y | y in b :: (x, y)) == Image(b, f);
  }

  lemma {:induction false} ImageSize<A, B>(s: set<A>, f: A -> B)
    ensures |Image(s, f)| <= |s|
  {
    if s != {} {
      var x :| x in s;
      ImageSize(s - {x}, f);
      assert Image(s, f) == Image(s - {x}, f) + {f(x)};
    } else {
      assert Image(s, f) == {};
    }
  }

  function Elements<T>(xs: seq<T>): set<T>
  {
    set x | x in xs
  }

  lemma {:induction false} ElementsSize<T>(xs: seq<T>)
    ensures |Elements(xs)| <= |xs|
  {
    if xs != [] {
      ElementsSize(xs[1..]);
      assert Elements(xs) == {xs[0]} + Elements(xs[1..]);
    }
  }

  // ----- decimal numerals -----

  function Digit(n: nat): (c: char)
    requires n < 10
    ensures '0' <= c <= '9'
  {
    '0' + n as char
  }

  function Decimal(n: nat): (s: string)
    ensures s != [] && forall i :: 0 <= i < |s| ==> '0' <= s[i] <= '9'
  {
    if n < 10 then [Digit(n)] else Decimal(n / 10) + [Digit(n % 10)]
  }

  lemma {:induction false} DecimalInjective(m: nat, n: nat)
    requires Decimal(m) == Decimal(n)
    ensures m == n
    decreases m
  {
    var a, b := Decimal(m), Decimal(n);
    assert a[|a| - 1] == Digit(m % 10) && b[|b| - 1] == Digit(n % 10);
    if m >= 10 && n >= 10 {
      assert a[..|a| - 1] == Decimal(m / 10) && b[..|b| - 1] == Decimal(n / 10);
      DecimalInjective(m / 10, n / 10);
    }
  }
}
