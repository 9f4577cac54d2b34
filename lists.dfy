/** Python list operations the games use on lists of plain values. */
module Lists {

  /** list.remove(x): drops the first element equal to x.  Python raises
      ValueError when there is none; callers check `x in s` first where that
      can happen. */
  function RemoveFirst<T(==)>(s: seq<T>, x: T): seq<T>
  {
    if s == [] then []
    else if s[0] == x then s[1..]
    else [s[0]] + RemoveFirst(s[1..], x)
  }

  /** list.remove takes out one copy of x and keeps every other element. */
  lemma {:induction false} RemoveFirstMultiset<T>(s: seq<T>, x: T)
    ensures multiset(RemoveFirst(s, x)) == multiset(s) - multiset{x}
    decreases |s|
  {
    if s != [] {
      assert s == [s[0]] + s[1..];
      if s[0] != x {
        RemoveFirstMultiset(s[1..], x);
      }
    }
  }

  /** list.remove shortens the list by one when x is in it, and leaves it
      as it is otherwise. */
  lemma {:induction false} RemoveFirstLength<T>(s: seq<T>, x: T)
    ensures x in s ==> |RemoveFirst(s, x)| == |s| - 1
    ensures x !in s ==> RemoveFirst(s, x) == s
    decreases |s|
  {
    if s != [] && s[0] != x {
      assert x in s ==> x in s[1..] by {
        assert s == [s[0]] + s[1..];
      }
      RemoveFirstLength(s[1..], x);
    }
  }

  /** list.remove passes over a first element that differs from x. */
  lemma RemoveFirstCons<T>(d: T, t: seq<T>, x: T)
    requires d != x
    ensures RemoveFirst([d] + t, x) == [d] + RemoveFirst(t, x)
  {
    assert ([d] + t)[1..] == t;
  }

  /** When no element before x equals it, list.remove takes out exactly that
      occurrence. */
  lemma {:induction false} RemoveFirstAfter<T>(done: seq<T>, x: T, rest: seq<T>)
    requires x !in done
    ensures RemoveFirst(done + [x] + rest, x) == done + rest
    decreases |done|
  {
    if done == [] {
      assert done + [x] + rest == [x] + rest;
      assert ([x] + rest)[1..] == rest;
    } else {
      var d, tail := done[0], done[1..];
      var t2 := tail + [x] + rest;
      assert done + [x] + rest == [d] + t2 by {
        assert done == [d] + tail;
      }
      assert d != x by {
        assert d in done;
      }
      RemoveFirstCons(d, t2, x);
      RemoveFirstAfter(tail, x, rest);
      assert [d] + (tail + rest) == done + rest by {
        assert done == [d] + tail;
      }
    }
  }

  /** No element occurs twice. */
  predicate NoDup<T(==)>(s: seq<T>) {
    forall i, j :: 0 <= i < |s| && 0 <= j < |s| && i != j ==> s[i] != s[j]
  }

  /** list.remove only takes elements away. */
  lemma {:induction false} RemoveFirstIn<T>(s: seq<T>, x: T)
    ensures forall y :: y in RemoveFirst(s, x) ==> y in s
    decreases |s|
  {
    if s != [] && s[0] != x {
      RemoveFirstIn(s[1..], x);
    }
  }

  /** list.remove(x) keeps every element other than x. */
  lemma {:induction false} RemoveFirstKeeps<T>(s: seq<T>, x: T, y: T)
    requires y in s && y != x
    ensures y in RemoveFirst(s, x)
    decreases |s|
  {
    if s[0] != x && s[0] != y {
      RemoveFirstKeeps(s[1..], x, y);
    }
  }

  /** list.remove keeps a list free of duplicates. */
  lemma {:induction false} RemoveFirstNoDup<T>(s: seq<T>, x: T)
    requires NoDup(s)
    ensures NoDup(RemoveFirst(s, x))
    decreases |s|
  {
    if s != [] && s[0] != x {
      var t := s[1..];
      NoDupTail(s);
      RemoveFirstNoDup(t, x);
      RemoveFirstIn(t, x);
      var r := RemoveFirst(t, x);
      assert s[0] !in r;
      var u := [s[0]] + r;
      forall i, j | 0 <= i < |u| && 0 <= j < |u| && i != j
        ensures u[i] != u[j]
      {
        if i > 0 && j > 0 {
          assert u[i] == r[i - 1] && u[j] == r[j - 1];
        } else if i == 0 {
          assert u[j] == r[j - 1] && u[j] in r;
        } else {
          assert u[i] == r[i - 1] && u[i] in r;
        }
      }
    }
  }

  /** In a list without duplicates, list.remove(x) leaves no x behind. */
  lemma {:induction false} RemoveFirstGone<T>(s: seq<T>, x: T)
    requires NoDup(s)
    ensures x !in RemoveFirst(s, x)
    decreases |s|
  {
    if s != [] && s[0] != x {
      NoDupTail(s);
      RemoveFirstGone(s[1..], x);
    }
  }

  /** The tail of a list without duplicates has none. */
  lemma NoDupTail<T>(s: seq<T>)
    requires NoDup(s) && s != []
    ensures NoDup(s[1..])
  {
    var t := s[1..];
    forall i, j | 0 <= i < |t| && 0 <= j < |t| && i != j
      ensures t[i] != t[j]
    {
      assert t[i] == s[i + 1] && t[j] == s[j + 1];
    }
  }
}
