/** Byte strings, prefixes and first-occurrence search, as std::string and std::string_view provide them. */
module ByteStrings {
  import opened Wrappers

  type Byte = x: int | 0 <= x < 256
  type Bytes = seq<Byte>

  /** One of the two strings is a prefix of the other. */
  predicate Comparable(a: Bytes, b: Bytes) {
    a <= b || b <= a
  }

  predicate EndsWith(s: Bytes, p: Bytes) {
    |p| <= |s| && s[|s| - |p|..] == p
  }

  /** The pattern stands at position i. */
  predicate OccursAt(s: Bytes, p: Bytes, i: int) {
    0 <= i <= |s| && p <= s[i..]
  }

  predicate Contains(s: Bytes, p: Bytes) {
    exists i :: 0 <= i <= |s| && OccursAt(s, p, i)
  }

  /** Dropping a front part shifts every occurrence. */
  lemma OccursAfter(s: Bytes, p: Bytes, k: nat, i: nat)
    requires k + i <= |s|
    ensures OccursAt(s[k..], p, i) <==> OccursAt(s, p, k + i)
  {
    assert s[k..][i..] == s[k + i..];
  }

  /** An occurrence inside the middle of a text is an occurrence in the text. */
  lemma OccursInside(a: Bytes, b: Bytes, c: Bytes, p: Bytes, i: nat)
    requires OccursAt(b, p, i)
    ensures OccursAt(a + b + c, p, |a| + i)
  {
    assert (a + b + c)[|a| + i..] == b[i..] + c;
  }

  /** What a search for the first of several stop strings finds. */
  datatype Hit = Hit(at: nat, stop: Bytes)

  /** No stop string begins before position n. */
  ghost predicate NoneBefore(s: Bytes, stops: seq<Bytes>, n: nat) {
    forall i, p :: 0 <= i < n && p in stops ==> !OccursAt(s, p, i)
  }

  /** The first stop string of the list that stands at the front of the text. */
  function AtFront(s: Bytes, stops: seq<Bytes>): (r: Option<Bytes>)
    ensures r.Some? ==> r.value in stops && OccursAt(s, r.value, 0)
    ensures r.None? ==> forall p :: p in stops ==> !OccursAt(s, p, 0)
  {
    if stops == [] then None
    else
      assert s[0..] == s && stops == [stops[0]] + stops[1..];
      if stops[0] <= s then Some(stops[0]) else AtFront(s, stops[1..])
  }

  /** The earliest occurrence of any stop string; ties go to the earlier string of the list. */
  function Search(s: Bytes, stops: seq<Bytes>): (r: Option<Hit>)
    requires [] !in stops
    ensures r.Some? ==> r.value.stop in stops && OccursAt(s, r.value.stop, r.value.at)
    ensures NoneBefore(s, stops, if r.Some? then r.value.at else |s|)
  {
    if s == [] then None
    else
      match AtFront(s, stops)
      case Some(p) => Some(Hit(0, p))
      case None =>
        assert forall i, p :: 1 <= i <= |s| && p in stops ==> (OccursAt(s, p, i) <==> OccursAt(s[1..], p, i - 1)) by {
          forall i, p | 1 <= i <= |s| && p in stops ensures OccursAt(s, p, i) <==> OccursAt(s[1..], p, i - 1) {
            OccursAfter(s, p, 1, i - 1);
          }
        }
        match Search(s[1..], stops)
        case None => None
        case Some(h) => Some(Hit(h.at + 1, h.stop))
  }

  /** When no stop is a prefix of another, an occurrence with nothing before it is what the search finds. */
  lemma SearchIs(s: Bytes, stops: seq<Bytes>, at: nat, stop: Bytes)
    requires [] !in stops
    requires forall p, q :: p in stops && q in stops && p != q ==> !(p <= q)
    requires stop in stops && OccursAt(s, stop, at) && NoneBefore(s, stops, at)
    ensures Search(s, stops) == Some(Hit(at, stop))
  {
    var r := Search(s, stops);
    assert r.Some? && r.value.at == at;
    assert Comparable(r.value.stop, stop);
  }

  /** std::string::find: the first occurrence of one pattern, None for npos. */
  function Find(s: Bytes, p: Bytes): (r: Option<nat>)
    requires p != []
    ensures r.Some? ==> OccursAt(s, p, r.value) && forall i :: 0 <= i < r.value ==> !OccursAt(s, p, i)
    ensures r.None? <==> !Contains(s, p)
  {
    match Search(s, [p])
    case None => assert p in [p]; None
    case Some(h) => assert p in [p]; Some(h.at)
  }

  lemma Assoc<T>(a: seq<T>, b: seq<T>, c: seq<T>)
    ensures (a + b) + c == a + (b + c)
  {
  }

  function Flatten<T>(parts: seq<seq<T>>): (r: seq<T>) {
    if parts == [] then [] else parts[0] + Flatten(parts[1..])
  }

  lemma {:induction false} FlattenAppend<T>(a: seq<seq<T>>, b: seq<seq<T>>)
    ensures Flatten(a + b) == Flatten(a) + Flatten(b)
  {
    if a == [] {
      assert a + b == b;
    } else {
      FlattenAppend(a[1..], b);
      assert (a + b)[1..] == a[1..] + b;
      Assoc(a[0], Flatten(a[1..]), Flatten(b));
    }
  }
}
