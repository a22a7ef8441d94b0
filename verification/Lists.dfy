/** Sequence operations shared by the parts of the model. */
module Lists {
  function Init<T>(s: seq<T>): seq<T>
    requires s != []
  {
    s[..|s| - 1]
  }

  function Last<T>(s: seq<T>): T
    requires s != []
  {
    s[|s| - 1]
  }

  ghost predicate NoDuplicates<T>(s: seq<T>) {
    forall i, j | 0 <= i < j < |s| :: s[i] != s[j]
  }

  /** All results of `f` on the elements of `s`, in order. */
  function FlatMap<T, U>(f: T -> seq<U>, s: seq<T>): seq<U> {
    if s == [] then [] else f(s[0]) + FlatMap(f, s[1..])
  }

  lemma {:induction false} FlatMapAppend<T, U>(f: T -> seq<U>, s: seq<T>, t: seq<T>)
    ensures FlatMap(f, s + t) == FlatMap(f, s) + FlatMap(f, t)
  {
    if s == [] {
      assert s + t == t;
    } else {
      FlatMapAppend(f, s[1..], t);
      var head, mid, last := f(s[0]), FlatMap(f, s[1..]), FlatMap(f, t);
      assert FlatMap(f, s + t) == head + (mid + last) by {
        assert (s + t)[1..] == s[1..] + t;
      }
      hide *;
    }
  }

  lemma FlatMapOne<T, U>(f: T -> seq<U>, x: T)
    ensures FlatMap(f, [x]) == f(x)
  {
    assert [x][1..] == [];
  }

  lemma FlatMapSnoc<T, U>(f: T -> seq<U>, s: seq<T>, x: T)
    ensures FlatMap(f, s + [x]) == FlatMap(f, s) + f(x)
  {
    FlatMapAppend(f, s, [x]);
    FlatMapOne(f, x);
  }

  lemma {:induction false} FlatMapMember<T, U>(f: T -> seq<U>, s: seq<T>, y: U)
    ensures y in FlatMap(f, s) <==> exists x :: x in s && y in f(x)
  {
    if s != [] {
      FlatMapMember(f, s[1..], y);
      assert forall x :: x in s <==> x == s[0] || x in s[1..];
    }
  }

  /** Two passes at once. */
  lemma {:induction false} FlatMapTwice<T, U, V>(f: T -> seq<U>, g: U -> seq<V>, h: T -> seq<V>, s: seq<T>)
    requires forall x | x in s :: FlatMap(g, f(x)) == h(x)
    ensures FlatMap(g, FlatMap(f, s)) == FlatMap(h, s)
  {
    if s != [] {
      assert s[0] in s;
      FlatMapTwice(f, g, h, s[1..]);
      FlatMapAppend(g, f(s[0]), FlatMap(f, s[1..]));
    }
  }

  /** Replacing every element by at most one element is the identity exactly when it
      replaces every element by itself. */
  lemma {:induction false} FlatMapIdentity<T(!new)>(f: T -> seq<T>, s: seq<T>)
    requires forall x | x in s :: |f(x)| <= 1
    ensures |FlatMap(f, s)| <= |s|
    ensures FlatMap(f, s) == s <==> forall x | x in s :: f(x) == [x]
  {
    if s != [] {
      assert s[0] in s;
      FlatMapIdentity(f, s[1..]);
      var r := FlatMap(f, s);
      assert forall x :: x in s <==> x == s[0] || x in s[1..];
      if r == s {
        assert |f(s[0])| == 1;
        assert f(s[0]) == r[..1] == [s[0]];
        assert FlatMap(f, s[1..]) == r[1..];
      }
    }
  }
}
