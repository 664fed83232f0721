// Selecting from sequences.
module Sequences {

  function Filter<T>(f: T -> bool, s: seq<T>): (r: seq<T>)
    ensures |r| <= |s|
  {
    if s == [] then []
    else if f(s[0]) then [s[0]] + Filter(f, s[1..])
    else Filter(f, s[1..])
  }

  lemma {:induction false} FilterConcat<T>(f: T -> bool, s: seq<T>, t: seq<T>)
    ensures Filter(f, s + t) == Filter(f, s) + Filter(f, t)
  {
    if s == [] {
      assert s + t == t;
    } else {
      assert (s + t)[1..] == s[1..] + t;
      FilterConcat(f, s[1..], t);
    }
  }

  lemma {:induction false} FilterMember<T>(f: T -> bool, s: seq<T>, x: T)
    ensures x in Filter(f, s) <==> x in s && f(x)
  {
    if s != [] {
      FilterMember(f, s[1..], x);
      assert s == [s[0]] + s[1..];
    }
  }

  lemma {:induction false} FilterCommutes<T>(f: T -> bool, g: T -> bool, s: seq<T>)
    ensures Filter(f, Filter(g, s)) == Filter(g, Filter(f, s))
  {
    if s != [] {
      FilterCommutes(f, g, s[1..]);
      var fs, gs := Filter(f, s[1..]), Filter(g, s[1..]);
      assert ([s[0]] + fs)[1..] == fs && ([s[0]] + gs)[1..] == gs;
    }
  }

  lemma {:induction false} FilterSame<T>(f: T -> bool, g: T -> bool, s: seq<T>)
    requires forall x :: x in s ==> f(x) == g(x)
    ensures Filter(f, s) == Filter(g, s)
  {
    if s != [] {
      FilterSame(f, g, s[1..]);
    }
  }

  lemma {:induction false} FilterAll<T>(f: T -> bool, s: seq<T>)
    ensures (forall x :: x in s ==> f(x)) ==> Filter(f, s) == s
    ensures (forall x :: x in s ==> !f(x)) ==> Filter(f, s) == []
  {
    if s != [] {
      FilterAll(f, s[1..]);
      assert s == [s[0]] + s[1..];
      assert s[0] in s;
    }
  }

  function Take<T>(s: seq<T>, n: nat): seq<T> {
    if n <= |s| then s[..n] else s
  }

  predicate IsSuffix<T(==)>(a: seq<T>, b: seq<T>) {
    |a| <= |b| && b[|b| - |a|..] == a
  }
}
