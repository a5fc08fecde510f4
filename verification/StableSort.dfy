/** Stable sorting by a strict weak order, and the proof that its result does not depend on the algorithm. */
module StableSort {
  /** What a comparison must satisfy for a sort to be defined. */
  ghost predicate WeakOrder<T(!new)>(less: (T, T) -> bool) {
    && (forall x :: !less(x, x))
    && (forall x, y, z :: less(x, y) && less(y, z) ==> less(x, z))
    && (forall x, y, z :: less(x, z) ==> less(x, y) || less(y, z))
  }

  predicate Alike<T>(less: (T, T) -> bool, x: T, y: T) { !less(x, y) && !less(y, x) }

  predicate Ordered<T>(s: seq<T>, less: (T, T) -> bool) {
    forall i, j :: 0 <= i < j < |s| ==> !less(s[j], s[i])
  }

  /** The elements that compare equal to x, in their order. */
  function Class<T>(s: seq<T>, less: (T, T) -> bool, x: T): seq<T> {
    if s == [] then [] else (if Alike(less, s[0], x) then [s[0]] else []) + Class(s[1..], less, x)
  }

  /** Puts x before the first element it does not follow. */
  function Insert<T>(x: T, s: seq<T>, less: (T, T) -> bool): (r: seq<T>)
    ensures multiset(r) == multiset{x} + multiset(s)
  {
    if s == [] || !less(s[0], x) then [x] + s
    else
      assert s == [s[0]] + s[1..];
      [s[0]] + Insert(x, s[1..], less)
  }

  /** Insertion sort from the back: a reference for any stable sort. */
  function Sort<T>(s: seq<T>, less: (T, T) -> bool): (r: seq<T>)
    ensures multiset(r) == multiset(s) && |r| == |s|
  {
    if s == [] then []
    else
      assert s == [s[0]] + s[1..];
      var r := Insert(s[0], Sort(s[1..], less), less);
      assert |multiset(r)| == |r| && |multiset(s)| == |s|;
      r
  }

  lemma {:induction false} InsertKeepsOrder<T(!new)>(x: T, s: seq<T>, less: (T, T) -> bool)
    requires WeakOrder(less) && Ordered(s, less)
    ensures Ordered(Insert(x, s, less), less)
  {
    if s != [] && less(s[0], x) {
      var tail := s[1..];
      InsertKeepsOrder(x, tail, less);
      var r := Insert(x, tail, less);
      forall i | 0 <= i < |r| ensures !less(r[i], s[0]) {
        assert r[i] in multiset(r);
        assert r[i] == x || r[i] in tail;
      }
    }
  }

  lemma {:induction false} InsertIsStable<T(!new)>(x: T, s: seq<T>, less: (T, T) -> bool, y: T)
    requires WeakOrder(less) && Ordered(s, less)
    ensures Class(Insert(x, s, less), less, y) == Class([x] + s, less, y)
  {
    hide WeakOrder;
    assert ([x] + s)[1..] == s;
    if s != [] && less(s[0], x) {
      var tail := s[1..];
      InsertIsStable(x, tail, less, y);
      assert ([x] + tail)[1..] == tail;
      assert Insert(x, s, less)[1..] == Insert(x, tail, less);
      NotBothAlike(less, s[0], x, y);
    }
  }

  lemma NotBothAlike<T(!new)>(less: (T, T) -> bool, a: T, b: T, y: T)
    requires WeakOrder(less) && less(a, b)
    ensures !(Alike(less, a, y) && Alike(less, b, y))
  {
    assert less(a, y) || less(y, b);
  }

  /** The sort is ordered and keeps the order of elements that compare equal. */
  lemma {:induction false} SortIsStable<T(!new)>(s: seq<T>, less: (T, T) -> bool)
    requires WeakOrder(less)
    ensures Ordered(Sort(s, less), less)
    ensures forall y :: Class(Sort(s, less), less, y) == Class(s, less, y)
  {
    if s != [] {
      var x, tail := s[0], s[1..];
      SortIsStable(tail, less);
      InsertKeepsOrder(x, Sort(tail, less), less);
      forall y ensures Class(Sort(s, less), less, y) == Class(s, less, y) {
        InsertIsStable(x, Sort(tail, less), less, y);
        assert ([x] + Sort(tail, less))[1..] == Sort(tail, less);
      }
    }
  }

  lemma {:induction false} ClassMembers<T(!new)>(s: seq<T>, less: (T, T) -> bool, x: T, y: T)
    ensures y in Class(s, less, x) <==> y in s && Alike(less, y, x)
  {
    if s != [] {
      ClassMembers(s[1..], less, x, y);
      assert s == [s[0]] + s[1..];
    }
  }

  /** The first element is not preceded by anything of the other sequence. */
  lemma FrontIsLeast<T(!new)>(s: seq<T>, t: seq<T>, less: (T, T) -> bool)
    requires WeakOrder(less) && Ordered(s, less) && t != []
    requires forall y :: Class(s, less, y) == Class(t, less, y)
    ensures s != [] && !less(t[0], s[0])
  {
    ClassMembers(t, less, t[0], t[0]);
    ClassMembers(s, less, t[0], t[0]);
    assert t[0] in s;
  }

  /** Uniqueness: two ordered sequences whose classes agree are equal, so every stable sort gives the same result. */
  lemma {:induction false} StableOrderIsUnique<T(!new)>(s: seq<T>, t: seq<T>, less: (T, T) -> bool)
    requires WeakOrder(less) && Ordered(s, less) && Ordered(t, less)
    requires forall y :: Class(s, less, y) == Class(t, less, y)
    ensures s == t
  {
    if t != [] {
      FrontIsLeast(s, t, less);
      FrontIsLeast(t, s, less);
      assert Class(s, less, s[0])[0] == s[0] && Class(t, less, s[0])[0] == t[0];
      forall y ensures Class(s[1..], less, y) == Class(t[1..], less, y) {
        var own := if Alike(less, s[0], y) then [s[0]] else [];
        assert Class(s, less, y) == own + Class(s[1..], less, y);
        assert Class(t, less, y) == own + Class(t[1..], less, y);
        assert Class(s, less, y)[|own|..] == Class(t, less, y)[|own|..];
      }
      StableOrderIsUnique(s[1..], t[1..], less);
      assert s == [s[0]] + s[1..] && t == [t[0]] + t[1..];
    } else if s != [] {
      FrontIsLeast(t, s, less);
    }
  }

  // ---- Counting ----------------------------------------------------------------------------------------------

  function Count<T>(s: seq<T>, p: T -> bool): nat {
    if s == [] then 0 else (if p(s[0]) then 1 else 0) + Count(s[1..], p)
  }

  lemma {:induction false} CountPlus<T>(s: seq<T>, t: seq<T>, p: T -> bool)
    ensures Count(s + t, p) == Count(s, p) + Count(t, p)
  {
    if s == [] {
      assert s + t == t;
    } else {
      CountPlus(s[1..], t, p);
      assert (s + t)[1..] == s[1..] + t;
    }
  }

  lemma OneLess<T>(x: T, tail: seq<T>, front: seq<T>, back: seq<T>)
    requires multiset([x] + tail) == multiset(front + ([x] + back))
    ensures multiset(tail) == multiset(front + back)
  {
    assert multiset(front + ([x] + back)) == multiset(front) + (multiset{x} + multiset(back));
    Cancel(multiset{x}, multiset(tail), multiset(front) + multiset(back));
  }

  lemma Cancel<T>(a: multiset<T>, b: multiset<T>, c: multiset<T>)
    requires a + b == a + c
    ensures b == c
  {
    forall z ensures b[z] == c[z] {
      assert (a + b)[z] == (a + c)[z];
    }
  }

  /** Rearranging a sequence changes no count. */
  lemma {:induction false} CountPermutes<T>(s: seq<T>, t: seq<T>, p: T -> bool)
    requires multiset(s) == multiset(t)
    ensures Count(s, p) == Count(t, p)
  {
    if s == [] {
      assert |multiset(s)| == |s| && |multiset(t)| == |t|;
      assert t == [];
    } else {
      var x, tail := s[0], s[1..];
      assert s == [x] + tail;
      assert x in multiset(s);
      var j :| 0 <= j < |t| && t[j] == x;
      var front, back := t[..j], t[j + 1..];
      assert t == front + ([x] + back);
      OneLess(x, tail, front, back);
      CountPermutes(tail, front + back, p);
      CountPlus(front, back, p);
      CountPlus(front, [x] + back, p);
      assert ([x] + back)[1..] == back;
    }
  }

  // ---- Strings -----------------------------------------------------------------------------------------------

  /** Lexicographic comparison of strings by code point. */
  predicate StringLess(a: string, b: string) {
    b != [] && (a == [] || a[0] < b[0] || (a[0] == b[0] && StringLess(a[1..], b[1..])))
  }

  lemma {:induction false} StringLessCompares(a: string, b: string, c: string)
    ensures !StringLess(a, a)
    ensures StringLess(a, b) && StringLess(b, c) ==> StringLess(a, c)
    ensures StringLess(a, c) ==> StringLess(a, b) || StringLess(b, c)
  {
    if a != [] {
      var rest: string := if b == [] then [] else b[1..];
      var last: string := if c == [] then [] else c[1..];
      StringLessCompares(a[1..], rest, last);
    }
  }
}
