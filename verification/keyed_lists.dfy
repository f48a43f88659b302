/** Lists of records identified by a string id, as the projects and
    experiences lists are: `list.map((x) => x.id === id ? edit(x) : x)` and
    `list.filter((x) => x.id !== id)`. The id is read through `key`. */
module KeyedLists {

  /** No two elements share an id. */
  predicate UniqueKeys<T>(xs: seq<T>, key: T -> string)
  {
    forall i, j :: 0 <= i < j < |xs| ==> key(xs[i]) != key(xs[j])
  }

  /** Some element has id `k`. */
  predicate HasKey<T>(xs: seq<T>, key: T -> string, k: string)
  {
    exists i :: 0 <= i < |xs| && key(xs[i]) == k
  }

  /** `xs.map((x) => key(x) === k ? edit(x) : x)`: same length and order;
      the elements with id `k` are edited, the others are kept as they are. */
  function UpdateWhere<T>(xs: seq<T>, key: T -> string, k: string, edit: T -> T): (r: seq<T>)
    ensures |r| == |xs|
    ensures forall i :: 0 <= i < |xs| && key(xs[i]) == k ==> r[i] == edit(xs[i])
    ensures forall i :: 0 <= i < |xs| && key(xs[i]) != k ==> r[i] == xs[i]
  {
    if |xs| == 0 then []
    else [if key(xs[0]) == k then edit(xs[0]) else xs[0]] + UpdateWhere(xs[1..], key, k, edit)
  }

  /** `xs.filter((x) => key(x) !== k)`: no element with id `k` is left, and
      the elements left are exactly the other elements of `xs`. */
  function RemoveWhere<T(==)>(xs: seq<T>, key: T -> string, k: string): (r: seq<T>)
    ensures |r| <= |xs|
    ensures forall i :: 0 <= i < |r| ==> key(r[i]) != k
    ensures forall i :: 0 <= i < |r| ==> r[i] in xs
    ensures forall i :: 0 <= i < |xs| && key(xs[i]) != k ==> xs[i] in r
  {
    if |xs| == 0 then []
    else
      assert xs == [xs[0]] + xs[1..];
      (if key(xs[0]) == k then [] else [xs[0]]) + RemoveWhere(xs[1..], key, k)
  }

  // ----- Lemmas -------------------------------------------------------------

  /** Removal keeps the relative order: removing from a concatenation is
      concatenating the removals. */
  lemma {:induction false} RemoveWhereAppend<T>(a: seq<T>, b: seq<T>, key: T -> string, k: string)
    ensures RemoveWhere(a + b, key, k) == RemoveWhere(a, key, k) + RemoveWhere(b, key, k)
  {
    if |a| == 0 {
      assert a + b == b;
    } else {
      var head := if key(a[0]) == k then [] else [a[0]];
      assert (a + b)[0] == a[0];
      assert (a + b)[1..] == a[1..] + b;
      RemoveWhereAppend(a[1..], b, key, k);
      calc {
        RemoveWhere(a + b, key, k);
        head + RemoveWhere(a[1..] + b, key, k);
        head + (RemoveWhere(a[1..], key, k) + RemoveWhere(b, key, k));
        (head + RemoveWhere(a[1..], key, k)) + RemoveWhere(b, key, k);
        RemoveWhere(a, key, k) + RemoveWhere(b, key, k);
      }
    }
  }

  /** Removal drops every occurrence of an element with id `k` and keeps
      every other element as many times as it occurs. */
  lemma {:induction false} RemoveWhereCounts<T>(xs: seq<T>, key: T -> string, k: string, x: T)
    ensures multiset(RemoveWhere(xs, key, k))[x] == if key(x) == k then 0 else multiset(xs)[x]
  {
    if |xs| > 0 {
      RemoveWhereCounts(xs[1..], key, k, x);
      assert xs == [xs[0]] + xs[1..];
      assert multiset(xs) == multiset([xs[0]]) + multiset(xs[1..]);
    }
  }

  /** Removing an id no element has leaves the list unchanged, and removing
      an id some element has shortens it. */
  lemma {:induction false} RemoveWhereUnchangedIff<T>(xs: seq<T>, key: T -> string, k: string)
    ensures RemoveWhere(xs, key, k) == xs <==> !HasKey(xs, key, k)
  {
    if |xs| > 0 {
      RemoveWhereUnchangedIff(xs[1..], key, k);
      if key(xs[0]) == k {
        assert |RemoveWhere(xs, key, k)| < |xs|;
      } else if HasKey(xs, key, k) {
        var i :| 0 <= i < |xs| && key(xs[i]) == k;
        assert key(xs[1..][i - 1]) == k;
      } else {
        forall i | 0 <= i < |xs[1..]| ensures key(xs[1..][i]) != k {
          assert xs[1..][i] == xs[i + 1];
        }
      }
    }
  }

  /** Updating an id no element has leaves the list unchanged. */
  lemma UpdateWhereAbsent<T>(xs: seq<T>, key: T -> string, k: string, edit: T -> T)
    requires !HasKey(xs, key, k)
    ensures UpdateWhere(xs, key, k, edit) == xs
  {
  }

  /** An edit that keeps ids keeps every id of the list in place, so it
      keeps ids unique. */
  lemma UpdateWhereKeepsKeys<T>(xs: seq<T>, key: T -> string, k: string, edit: T -> T)
    requires forall x :: key(edit(x)) == key(x)
    ensures forall i :: 0 <= i < |xs| ==> key(UpdateWhere(xs, key, k, edit)[i]) == key(xs[i])
    ensures UniqueKeys(xs, key) ==> UniqueKeys(UpdateWhere(xs, key, k, edit), key)
  {
  }

  /** Removal keeps ids unique. */
  lemma {:induction false} RemoveWhereKeepsUnique<T>(xs: seq<T>, key: T -> string, k: string)
    requires UniqueKeys(xs, key)
    ensures UniqueKeys(RemoveWhere(xs, key, k), key)
  {
    if |xs| > 0 {
      var tail := RemoveWhere(xs[1..], key, k);
      RemoveWhereKeepsUnique(xs[1..], key, k);
      if key(xs[0]) != k {
        forall j | 0 <= j < |tail| ensures key(tail[j]) != key(xs[0]) {
          assert tail[j] in tail;
          var m :| 0 <= m < |xs[1..]| && xs[1..][m] == tail[j];
          assert xs[m + 1] == tail[j];
        }
        var r := [xs[0]] + tail;
        forall i, j | 0 <= i < j < |r| ensures key(r[i]) != key(r[j]) {
          if i > 0 {
            assert r[i] == tail[i - 1] && r[j] == tail[j - 1];
          }
        }
      }
    }
  }

  /** Appending an element with a fresh id keeps ids unique. */
  lemma AppendFreshKeepsUnique<T>(xs: seq<T>, key: T -> string, x: T)
    requires UniqueKeys(xs, key)
    requires !HasKey(xs, key, key(x))
    ensures UniqueKeys(xs + [x], key)
  {
  }
}
