/**
 Value semantics of a read-only set property: `equals` and `hashCode`
 follow the java.util.Set contract over the elements of the wrapped set.

 The wrapped set is its iteration sequence of nullable elements (`None` is a
 null element); a Java Set holds each element once, which `Distinct` states.
 Element hash codes are Java ints given by an abstract `hash`; the property's
 own hash is accumulated with Java's 32-bit wrap-around. A membership test
 that throws (ClassCastException or NullPointerException from a set that
 refuses an element) is the abstract predicate `containsThrows`.
 */
module SetValue {
  import opened Outcomes

  type Int32 = x: int | -0x8000_0000 <= x < 0x8000_0000

  /** Two's-complement truncation to a Java int. */
  function ToInt32(x: int): (r: Int32)
    ensures (r - x) % 0x1_0000_0000 == 0
  {
    var m := x % 0x1_0000_0000;
    if m >= 0x8000_0000 then m - 0x1_0000_0000 else m
  }

  lemma ToInt32Add(a: int, b: int)
    ensures ToInt32(ToInt32(a) + b) == ToInt32(a + b)
  {
    var k := (ToInt32(a) - a) / 0x1_0000_0000;
    assert ToInt32(a) + b == (a + b) + k * 0x1_0000_0000;
    assert (ToInt32(a) + b) % 0x1_0000_0000 == (a + b) % 0x1_0000_0000;
  }

  ghost predicate Distinct<T>(s: seq<T>) {
    forall i, j :: 0 <= i < j < |s| ==> s[i] != s[j]
  }

  /** The argument of `equals(obj)`: this very property, a non-set object, or a set. */
  datatype Other<T> = Same | NotASet | SetOf(elems: seq<Option<T>>)

  /**
   `containsAll(c)` behind a handler that turns a throwing membership test
   into `false`: the elements of `c` are tested in iteration order and the
   first missing or refused one ends the test with `false`.
   */
  function ContainsAll<T(==)>(elems: seq<Option<T>>, c: seq<Option<T>>, containsThrows: Option<T> -> bool): (r: bool)
    ensures r <==> forall k :: 0 <= k < |c| ==> !containsThrows(c[k]) && c[k] in elems
  {
    if c == [] then true
    else if containsThrows(c[0]) then false
    else c[0] in elems && ContainsAll(elems, c[1..], containsThrows)
  }

  /** `equals(obj)` */
  function Equals<T(==)>(elems: seq<Option<T>>, obj: Other<T>, containsThrows: Option<T> -> bool): (r: bool)
    ensures obj.Same? ==> r
    ensures obj.NotASet? ==> !r
    ensures obj.SetOf? && |obj.elems| != |elems| ==> !r
    ensures obj.SetOf? ==>
      (r <==> |obj.elems| == |elems| && forall k :: 0 <= k < |obj.elems| ==> !containsThrows(obj.elems[k]) && obj.elems[k] in elems)
  {
    match obj
    case Same => true
    case NotASet => false
    case SetOf(other) => |other| == |elems| && ContainsAll(elems, other, containsThrows)
  }

  lemma {:induction false} DistinctCard<T>(s: seq<T>)
    requires Distinct(s)
    ensures |set k | 0 <= k < |s| :: s[k]| == |s|
  {
    if s != [] {
      var tail := s[1..];
      assert Distinct(tail);
      DistinctCard(tail);
      var st := set k | 0 <= k < |tail| :: tail[k];
      var ss := set k | 0 <= k < |s| :: s[k];
      assert ss == st + {s[0]} by {
        forall x | x in ss ensures x in st + {s[0]} {
          var k :| 0 <= k < |s| && s[k] == x;
          if k > 0 { assert tail[k - 1] == x; }
        }
        forall x | x in st ensures x in ss {
          var k :| 0 <= k < |tail| && tail[k] == x;
          assert s[k + 1] == x;
        }
      }
      assert s[0] !in st;
    }
  }

  /** The elements of a sequence, as a mathematical set. */
  function Elements<T>(s: seq<T>): set<T>
  {
    set k | 0 <= k < |s| :: s[k]
  }

  lemma ElementsMembers<T>(s: seq<T>, x: T)
    ensures x in Elements(s) <==> x in s
  {
    if x in s {
      var k :| 0 <= k < |s| && s[k] == x;
      assert x in Elements(s);
    }
  }

  /**
   Between two genuine sets whose elements the wrapped set accepts, `equals`
   is mathematical set equality: same size plus inclusion means same
   elements, because neither sequence repeats an element.
   */
  lemma EqualsIsSetEquality<T>(elems: seq<Option<T>>, other: seq<Option<T>>, containsThrows: Option<T> -> bool)
    requires Distinct(elems) && Distinct(other)
    requires forall k :: 0 <= k < |other| ==> !containsThrows(other[k])
    ensures Equals(elems, SetOf(other), containsThrows) <==> Elements(elems) == Elements(other)
  {
    DistinctCard(elems);
    DistinctCard(other);
    forall x ensures x in Elements(elems) <==> x in elems {
      ElementsMembers(elems, x);
    }
    forall x ensures x in Elements(other) <==> x in other {
      ElementsMembers(other, x);
    }
    if Equals(elems, SetOf(other), containsThrows) {
      assert Elements(other) <= Elements(elems);
      assert |Elements(other)| == |Elements(elems)|;
      SubsetSameCard(Elements(other), Elements(elems));
    }
    if Elements(elems) == Elements(other) {
      assert |other| == |elems|;
      forall k | 0 <= k < |other| ensures other[k] in elems {
        assert other[k] in Elements(other);
      }
    }
  }

  lemma SubsetSameCard<X>(a: set<X>, b: set<X>)
    requires a <= b && |a| == |b|
    ensures a == b
  {
    var rest := b - a;
    assert b == a + rest && a * rest == {};
    assert |rest| == 0;
    assert rest == {};
  }

  /** The contribution of one element to the hash: 0 for null. */
  function ElementHash<T>(e: Option<T>, hash: T -> Int32): int {
    match e
    case None => 0
    case Some(x) => hash(x)
  }

  /** The sum of the element hashes, without wrap-around. */
  function SumHashes<T>(s: seq<Option<T>>, hash: T -> Int32): int
    decreases |s|
  {
    if s == [] then 0 else SumHashes(s[..|s| - 1], hash) + ElementHash(s[|s| - 1], hash)
  }

  lemma {:induction false} SumHashesConcat<T>(a: seq<Option<T>>, b: seq<Option<T>>, hash: T -> Int32)
    ensures SumHashes(a + b, hash) == SumHashes(a, hash) + SumHashes(b, hash)
    decreases |b|
  {
    if b == [] {
      assert a + b == a;
    } else {
      assert (a + b)[..|a + b| - 1] == a + b[..|b| - 1];
      SumHashesConcat(a, b[..|b| - 1], hash);
    }
  }

  /**
   The unwrapped sum depends only on which elements occur how often, not on
   the iteration order.
   */
  lemma {:induction false} SumHashesPermutation<T>(a: seq<Option<T>>, b: seq<Option<T>>, hash: T -> Int32)
    requires multiset(a) == multiset(b)
    ensures SumHashes(a, hash) == SumHashes(b, hash)
    decreases |a|
  {
    if a != [] {
      var n := |a| - 1;
      var x := a[n];
      assert a == a[..n] + [x];
      assert x in multiset(b);
      var k :| 0 <= k < |b| && b[k] == x;
      var b' := b[..k] + b[k + 1..];
      assert b == b[..k] + [x] + b[k + 1..];
      assert multiset(a) == multiset(a[..n]) + multiset{x};
      assert multiset(b) == multiset(b[..k]) + multiset{x} + multiset(b[k + 1..]);
      assert multiset(b') == multiset(b[..k]) + multiset(b[k + 1..]);
      assert multiset(a[..n]) == multiset(a) - multiset{x};
      assert multiset(b') == multiset(b) - multiset{x};
      SumHashesPermutation(a[..n], b', hash);
      SumHashesConcat(b[..k] + [x], b[k + 1..], hash);
      SumHashesConcat(b[..k], [x], hash);
      SumHashesConcat(b[..k], b[k + 1..], hash);
      assert SumHashes([x], hash) == ElementHash(x, hash) by {
        assert [x][..0] == [];
      }
    }
  }

  /** `hashCode()`: sums the non-null element hashes as Java ints, wrapping at 32 bits. */
  method HashCode<T>(elems: seq<Option<T>>, hash: T -> Int32) returns (h: Int32)
    ensures h == ToInt32(SumHashes(elems, hash))
  {
    h := 0;
    var i := 0;
    while i < |elems|
      invariant 0 <= i <= |elems|
      invariant h == ToInt32(SumHashes(elems[..i], hash))
    {
      var e := elems[i];
      assert elems[..i + 1][..i] == elems[..i];
      if e.Some? {
        ToInt32Add(SumHashes(elems[..i], hash), hash(e.value));
        h := ToInt32(h + hash(e.value));
      }
      i := i + 1;
    }
    assert elems[..i] == elems;
  }

  lemma {:induction false} DistinctMultiset<T>(s: seq<T>, x: T)
    requires Distinct(s)
    ensures multiset(s)[x] == if x in s then 1 else 0
  {
    if s != [] {
      assert s == [s[0]] + s[1..];
      assert Distinct(s[1..]);
      DistinctMultiset(s[1..], x);
      assert s[0] !in s[1..];
    }
  }

  /**
   Equal sets have equal hash codes: when `equals` holds between two genuine
   sets the wrapped set accepts, their wrapped sums coincide whatever the
   iteration orders.
   */
  lemma EqualSetsHashEqually<T>(elems: seq<Option<T>>, other: seq<Option<T>>,
                                containsThrows: Option<T> -> bool, hash: T -> Int32)
    requires Distinct(elems) && Distinct(other)
    requires forall k :: 0 <= k < |other| ==> !containsThrows(other[k])
    requires Equals(elems, SetOf(other), containsThrows)
    ensures ToInt32(SumHashes(elems, hash)) == ToInt32(SumHashes(other, hash))
  {
    EqualsIsSetEquality(elems, other, containsThrows);
    forall x ensures multiset(elems)[x] == multiset(other)[x] {
      ElementsMembers(elems, x);
      ElementsMembers(other, x);
      DistinctMultiset(elems, x);
      DistinctMultiset(other, x);
    }
    assert multiset(elems) == multiset(other);
    SumHashesPermutation(elems, other, hash);
  }

  /**
   `equals` is symmetric between genuine sets neither of which refuses the
   other's elements.
   */
  lemma EqualsSymmetric<T>(a: seq<Option<T>>, b: seq<Option<T>>, containsThrows: Option<T> -> bool)
    requires Distinct(a) && Distinct(b)
    requires forall k :: 0 <= k < |a| ==> !containsThrows(a[k])
    requires forall k :: 0 <= k < |b| ==> !containsThrows(b[k])
    ensures Equals(a, SetOf(b), containsThrows) == Equals(b, SetOf(a), containsThrows)
  {
    EqualsIsSetEquality(a, b, containsThrows);
    EqualsIsSetEquality(b, a, containsThrows);
  }
}
