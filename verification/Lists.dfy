/** Finite sequences used as the source's tail queues, and sizes of sets. */
module Lists {

  /** No element occurs twice. */
  ghost predicate NoDup<T>(s: seq<T>) {
    forall i, j | 0 <= i < j < |s| :: s[i] != s[j]
  }

  /** TAILQ_REMOVE of an element found by identity: drops its first occurrence. */
  function Remove<T(==,!new)>(s: seq<T>, x: T): (r: seq<T>)
    ensures forall y | y != x :: y in r <==> y in s
    ensures x !in s ==> r == s
    ensures x in s ==> |r| == |s| - 1
  {
    if s == [] then []
    else if s[0] == x then s[1..]
    else
      var rest := Remove(s[1..], x);
      assert s == [s[0]] + s[1..];
      [s[0]] + rest
  }

  /** Position of the first occurrence; the length when there is none. */
  function IndexOf<T(==)>(s: seq<T>, x: T): (k: nat)
    ensures k <= |s|
    ensures k < |s| <==> x in s
    ensures k < |s| ==> s[k] == x
    ensures forall i | 0 <= i < k :: s[i] != x
  {
    if s == [] || s[0] == x then 0 else IndexOf(s[1..], x) + 1
  }

  /** Removal cuts the element out at its position. */
  lemma {:induction false} RemoveCuts<T(!new)>(s: seq<T>, x: T)
    requires x in s
    ensures Remove(s, x) == s[..IndexOf(s, x)] + s[IndexOf(s, x) + 1..]
  {
    if s[0] == x {
    } else {
      RemoveCuts(s[1..], x);
      var k := IndexOf(s[1..], x);
      assert s[..k + 1] == [s[0]] + s[1..][..k];
      assert s[k + 2..] == s[1..][k + 1..];
    }
  }

  /** In a duplicate-free list removal leaves no trace of the element. */
  lemma {:induction false} RemoveNoDup<T(!new)>(s: seq<T>, x: T)
    requires NoDup(s)
    ensures NoDup(Remove(s, x))
    ensures x !in Remove(s, x)
  {
    if x in s {
      RemoveCuts(s, x);
    }
  }

  /** Removing another element moves an element forward by at most one place, and never back. */
  lemma {:induction false} IndexAfterRemove<T(!new)>(s: seq<T>, x: T, y: T)
    requires NoDup(s) && y in s && x != y
    ensures y in Remove(s, x)
    ensures IndexOf(Remove(s, x), y)
         == if x in s && IndexOf(s, x) < IndexOf(s, y) then IndexOf(s, y) - 1 else IndexOf(s, y)
  {
    if x in s && s[0] != x && s[0] != y {
      assert s == [s[0]] + s[1..];
      IndexAfterRemove(s[1..], x, y);
    }
  }

  /** Appending does not move the elements already there. */
  lemma {:induction false} IndexAfterAppend<T(!new)>(s: seq<T>, t: seq<T>, y: T)
    requires y in s
    ensures IndexOf(s + t, y) == IndexOf(s, y)
  {
    if s[0] != y {
      assert (s + t)[1..] == s[1..] + t;
      IndexAfterAppend(s[1..], t, y);
    }
  }

  /** Moving an element to the end brings every element behind it one place forward. */
  lemma {:induction false} IndexAfterRotate<T(!new)>(s: seq<T>, i: nat, y: T)
    requires NoDup(s) && y in s && i < IndexOf(s, y)
    ensures y in Remove(s, s[i]) + [s[i]]
    ensures IndexOf(Remove(s, s[i]) + [s[i]], y) == IndexOf(s, y) - 1
  {
    assert IndexOf(s, s[i]) == i;
    IndexAfterRemove(s, s[i], y);
    IndexAfterAppend(Remove(s, s[i]), [s[i]], y);
  }

  // ----- sets -----

  /** Two sets that differ at most in w. */
  lemma Differ<T(!new)>(a: set<T>, b: set<T>, w: T)
    requires forall x | x != w :: x in a <==> x in b
    ensures |b| == |a| + (if w in b then 1 else 0) - (if w in a then 1 else 0)
  {
    assert a - {w} == b - {w};
    assert w in a ==> a == (a - {w}) + {w};
    assert w in b ==> b == (b - {w}) + {w};
    assert w !in a ==> a == a - {w};
    assert w !in b ==> b == b - {w};
  }

  lemma Subset<T>(a: set<T>, b: set<T>)
    requires a <= b
    ensures |a| <= |b|
  {
    assert b == a + (b - a);
  }
}
