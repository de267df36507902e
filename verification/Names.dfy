/** Strings in Python's order, and names in that order. */
module Names {

  predicate Before(a: string, b: string) {
    a != b && (a == "" || (b != "" && (a[0] < b[0] || (a[0] == b[0] && Before(a[1..], b[1..])))))
  }

  /** Up to here the strings are the same; then the first one ends, or has the smaller character. */
  ghost predicate PartsAt(a: string, b: string, k: nat) {
    k <= |a| && k < |b| && a[..k] == b[..k] && (k == |a| || a[k] < b[k])
  }

  lemma {:induction false} BeforeIs(a: string, b: string)
    ensures Before(a, b) <==> exists k: nat :: PartsAt(a, b, k)
  {
    if a == "" || b == "" || a[0] != b[0] {
      assert Before(a, b) ==> PartsAt(a, b, 0);
    } else {
      BeforeIs(a[1..], b[1..]);
      assert a == [a[0]] + a[1..] && b == [b[0]] + b[1..];
      if k: nat :| PartsAt(a[1..], b[1..], k) {
        assert a[..k + 1] == [a[0]] + a[1..][..k] && b[..k + 1] == [b[0]] + b[1..][..k];
        assert PartsAt(a, b, k + 1);
      }
      if k: nat :| PartsAt(a, b, k) {
        if k > 0 {
          assert a[1..][..k - 1] == a[..k][1..] && b[1..][..k - 1] == b[..k][1..];
          assert PartsAt(a[1..], b[1..], k - 1);
        }
      }
    }
  }

  lemma {:induction false} BeforeIsTotal(a: string, b: string)
    ensures a == b || Before(a, b) || Before(b, a)
    ensures !(Before(a, b) && Before(b, a))
  {
    if a != "" && b != "" {
      BeforeIsTotal(a[1..], b[1..]);
      assert a == [a[0]] + a[1..] && b == [b[0]] + b[1..];
    }
  }

  lemma {:induction false} BeforeIsTransitive(a: string, b: string, c: string)
    requires Before(a, b) && Before(b, c)
    ensures Before(a, c)
  {
    BeforeIsTotal(a, c);
    if a != "" && b != "" && c != "" && a[0] == b[0] == c[0] {
      BeforeIsTransitive(a[1..], b[1..], c[1..]);
    }
  }

  ghost predicate Ascending(names: seq<string>) {
    forall i, k :: 0 <= i < k < |names| ==> Before(names[i], names[k])
  }

  function Insert(x: string, names: seq<string>): (r: seq<string>)
    ensures forall n :: n in r <==> n == x || n in names
  {
    if names == [] || Before(x, names[0]) then [x] + names
    else if x == names[0] then names
    else [names[0]] + Insert(x, names[1..])
  }

  /** The distinct names in order. */
  function Sorted(names: seq<string>): (r: seq<string>)
    ensures forall n :: n in r <==> n in names
  {
    if names == [] then [] else Insert(names[0], Sorted(names[1..]))
  }

  lemma {:induction false} InsertAscends(x: string, names: seq<string>)
    requires Ascending(names)
    ensures Ascending(Insert(x, names))
  {
    if names != [] {
      BeforeIsTotal(x, names[0]);
      if Before(x, names[0]) {
        forall n | n in names ensures Before(x, n) {
          if n != names[0] {
            BeforeIsTransitive(x, names[0], n);
          }
        }
      } else if x != names[0] {
        InsertAscends(x, names[1..]);
        forall n | n in Insert(x, names[1..]) ensures Before(names[0], n) {
        }
      }
      hide Before;
    }
  }

  /** Sorting puts the names in strictly ascending order. */
  lemma {:induction false} SortedAscends(names: seq<string>)
    ensures Ascending(Sorted(names))
  {
    if names != [] {
      SortedAscends(names[1..]);
      InsertAscends(names[0], Sorted(names[1..]));
    }
  }
}
