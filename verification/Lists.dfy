/** Sequences the way the repository uses Python lists: filtering, membership and order. */
module Lists {

  datatype Option<+T> = None | Some(value: T)

  ghost predicate Distinct<T>(s: seq<T>) {
    forall i, j :: 0 <= i < j < |s| ==> s[i] != s[j]
  }

  function ToSet<T(==)>(s: seq<T>): (r: set<T>) {
    set x | x in s
  }

  /** `[x for x in s if x not in gone]` */
  function Without<T(==)>(s: seq<T>, gone: set<T>): seq<T> {
    if s == [] then []
    else (if s[0] in gone then [] else [s[0]]) + Without(s[1..], gone)
  }

  /** `[x for x in s if x in kept]` */
  function Within<T(==)>(s: seq<T>, kept: set<T>): seq<T> {
    if s == [] then []
    else (if s[0] in kept then [s[0]] else []) + Within(s[1..], kept)
  }

  lemma {:induction false} WithoutMembers<T>(s: seq<T>, gone: set<T>)
    ensures forall x :: x in Without(s, gone) <==> x in s && x !in gone
    ensures Distinct(s) ==> Distinct(Without(s, gone))
  {
    if s != [] {
      WithoutMembers(s[1..], gone);
      assert s == [s[0]] + s[1..];
    }
  }

  lemma {:induction false} WithinAll<T>(s: seq<T>, kept: set<T>)
    requires forall x :: x in s ==> x in kept
    ensures Within(s, kept) == s
  {
    if s != [] {
      WithinAll(s[1..], kept);
    }
  }

  lemma {:induction false} WithinWithout<T>(s: seq<T>, gone: set<T>)
    ensures Within(s, ToSet(Without(s, gone))) == Without(s, gone)
  {
    WithinIsWithout(s, ToSet(Without(s, gone)), gone, s);
  }

  lemma {:induction false} WithinIsWithout<T>(s: seq<T>, kept: set<T>, gone: set<T>, all: seq<T>)
    requires kept == ToSet(Without(all, gone))
    requires forall x :: x in s ==> x in all
    ensures Within(s, kept) == Without(s, gone)
  {
    WithoutMembers(all, gone);
    if s != [] {
      WithinIsWithout(s[1..], kept, gone, all);
    }
  }

  lemma {:induction false} WithoutSplit<T>(a: seq<T>, b: seq<T>, gone: set<T>)
    ensures Without(a + b, gone) == Without(a, gone) + Without(b, gone)
  {
    if a == [] {
      assert a + b == b;
    } else {
      assert (a + b)[1..] == a[1..] + b && (a + b)[0] == a[0];
      var head := if a[0] in gone then [] else [a[0]];
      assert Without(a, gone) == head + Without(a[1..], gone);
      assert Without(a + b, gone) == head + Without(a[1..] + b, gone);
      hide Without;
      WithoutSplit(a[1..], b, gone);
    }
  }

  lemma {:induction false} WithinSplit<T>(a: seq<T>, b: seq<T>, kept: set<T>)
    ensures Within(a + b, kept) == Within(a, kept) + Within(b, kept)
  {
    if a == [] {
      assert a + b == b;
    } else {
      assert (a + b)[1..] == a[1..] + b && (a + b)[0] == a[0];
      var head := if a[0] in kept then [a[0]] else [];
      assert Within(a, kept) == head + Within(a[1..], kept);
      assert Within(a + b, kept) == head + Within(a[1..] + b, kept);
      hide Within;
      WithinSplit(a[1..], b, kept);
    }
  }

  /** A duplicate-free list drawn from a set is no longer than the set. */
  lemma {:induction false} DistinctLength<T>(s: seq<T>, u: set<T>)
    requires Distinct(s) && forall x :: x in s ==> x in u
    ensures |s| <= |u|
  {
    if s != [] {
      assert s[0] !in s[1..];
      DistinctLength(s[1..], u - {s[0]});
    }
  }

  lemma {:induction false} ToSetSize<T>(s: seq<T>)
    ensures |ToSet(s)| <= |s|
  {
    if s == [] {
      assert ToSet(s) == {};
    } else {
      ToSetSize(s[1..]);
      assert ToSet(s) == {s[0]} + ToSet(s[1..]);
    }
  }

  lemma HasFirst<T>(s: seq<T>)
    ensures s != [] ==> s[0] in s
  {
  }

  lemma NothingIn<T>(s: seq<T>)
    requires forall x :: x !in s
    ensures s == []
  {
    HasFirst(s);
  }

  lemma {:induction false} Subset<T>(a: set<T>, b: set<T>)
    requires a <= b
    ensures |a| <= |b|
  {
    if a != {} {
      var x :| x in a;
      Subset(a - {x}, b - {x});
    }
  }
}
