/** Lexicographic order on strings, and sorting lists of distinct keys by it. */
module KeyOrder {
  /** Code-point order, which is also the order of the UTF-8 bytes. */
  predicate Less(a: string, b: string) {
    if b == [] then false
    else if a == [] then true
    else a[0] < b[0] || (a[0] == b[0] && Less(a[1..], b[1..]))
  }

  lemma {:induction false} LessTransitive(a: string, b: string, c: string)
    requires Less(a, b) && Less(b, c)
    ensures Less(a, c)
    decreases |a|
  {
    if a != [] && a[0] == b[0] && b[0] == c[0] {
      LessTransitive(a[1..], b[1..], c[1..]);
    }
  }

  lemma {:induction false} LessIrreflexive(a: string)
    ensures !Less(a, a)
    decreases |a|
  {
    if a != [] {
      LessIrreflexive(a[1..]);
    }
  }

  lemma {:induction false} LessTotal(a: string, b: string)
    ensures Less(a, b) || a == b || Less(b, a)
    decreases |a|
  {
    if a != [] && b != [] && a[0] == b[0] {
      LessTotal(a[1..], b[1..]);
      assert a == [a[0]] + a[1..] && b == [b[0]] + b[1..];
    }
  }

  predicate Distinct<T(==)>(xs: seq<T>) {
    xs == [] || (xs[0] !in xs[1..] && Distinct(xs[1..]))
  }

  /** Strictly ascending, stated on neighbours' whole tails. */
  predicate Ascending(keys: seq<string>) {
    keys == [] ||
    ((forall k :: k in keys[1..] ==> Less(keys[0], k)) && Ascending(keys[1..]))
  }

  function Insert(k: string, keys: seq<string>): (r: seq<string>)
    ensures forall x :: x in r <==> x == k || x in keys
  {
    if keys == [] || Less(k, keys[0]) then [k] + keys
    else
      assert keys == [keys[0]] + keys[1..];
      [keys[0]] + Insert(k, keys[1..])
  }

  lemma {:induction false} InsertAscending(k: string, keys: seq<string>)
    requires Ascending(keys) && k !in keys
    ensures Ascending(Insert(k, keys))
  {
    if keys != [] {
      var rest := keys[1..];
      assert keys == [keys[0]] + rest;
      LessTotal(k, keys[0]);
      if Less(k, keys[0]) {
        forall x | x in rest
          ensures Less(k, x)
        {
          LessTransitive(k, keys[0], x);
        }
        assert ([k] + keys)[1..] == keys;
      } else {
        InsertAscending(k, rest);
        assert ([keys[0]] + Insert(k, rest))[1..] == Insert(k, rest);
      }
    }
  }

  /** The sorted list of the given keys. */
  function Sort(keys: seq<string>): (r: seq<string>)
    ensures forall x :: x in r <==> x in keys
  {
    if keys == [] then []
    else
      assert keys == [keys[0]] + keys[1..];
      Insert(keys[0], Sort(keys[1..]))
  }

  lemma {:induction false} SortAscending(keys: seq<string>)
    requires Distinct(keys)
    ensures Ascending(Sort(keys))
  {
    if keys != [] {
      SortAscending(keys[1..]);
      InsertAscending(keys[0], Sort(keys[1..]));
    }
  }

  predicate SameMembers(a: seq<string>, b: seq<string>) {
    (forall x :: x in a ==> x in b) && (forall x :: x in b ==> x in a)
  }

  /** An ascending list is determined by its members. */
  lemma {:induction false} AscendingUnique(a: seq<string>, b: seq<string>)
    requires Ascending(a) && Ascending(b) && SameMembers(a, b)
    ensures a == b
  {
    assert b != [] ==> b[0] in a;
    if a != [] {
      assert a[0] in b;
      assert b[0] in a;
      assert a == [a[0]] + a[1..] && b == [b[0]] + b[1..];
      if a[0] != b[0] {
        LessTransitive(a[0], b[0], a[0]);
        LessIrreflexive(a[0]);
      }
      forall x | x in a[1..]
        ensures x in b[1..]
      {
        assert x in a && x in b;
        LessIrreflexive(x);
      }
      forall x | x in b[1..]
        ensures x in a[1..]
      {
        assert x in b && x in a;
        LessIrreflexive(x);
      }
      AscendingUnique(a[1..], b[1..]);
    }
  }

  /** Sorting forgets the order the keys came in. */
  lemma SortIgnoresOrder(a: seq<string>, b: seq<string>)
    requires Distinct(a) && Distinct(b) && SameMembers(a, b)
    ensures Sort(a) == Sort(b)
  {
    SortAscending(a);
    SortAscending(b);
    AscendingUnique(Sort(a), Sort(b));
  }

  /** The texts agree up to `i`, where the first ends or has the smaller code point. */
  predicate SmallerAt(a: string, b: string, i: nat) {
    i <= |a| && i < |b| && a[..i] == b[..i] && (i == |a| || a[i] as int < b[i] as int)
  }

  lemma {:induction false} LessHasPlace(a: string, b: string) returns (i: nat)
    requires Less(a, b)
    ensures SmallerAt(a, b, i)
    decreases |a|
  {
    if a != [] && a[0] == b[0] {
      var j := LessHasPlace(a[1..], b[1..]);
      i := j + 1;
      assert a[..i] == [a[0]] + a[1..][..j] && b[..i] == [b[0]] + b[1..][..j];
    } else {
      i := 0;
    }
  }

  lemma {:induction false} PlaceIsLess(a: string, b: string, i: nat)
    requires SmallerAt(a, b, i)
    ensures Less(a, b)
    decreases |a|
  {
    if i > 0 {
      assert a[..i][0] == b[..i][0];
      assert a[1..][..i - 1] == a[..i][1..] && b[1..][..i - 1] == b[..i][1..];
      PlaceIsLess(a[1..], b[1..], i - 1);
    }
  }

  lemma {:induction false} LaterIsGreater(keys: seq<string>, i: nat, j: nat)
    requires Ascending(keys) && i < j < |keys|
    ensures Less(keys[i], keys[j])
    decreases i
  {
    if i == 0 {
      assert keys[j] == keys[1..][j - 1];
    } else {
      LaterIsGreater(keys[1..], i - 1, j - 1);
    }
  }

  /** In the sorted list every key is smaller, at the first code point that differs, than those after it. */
  lemma SortedByCodePoint(keys: seq<string>, i: nat, j: nat)
    requires Distinct(keys) && i < j < |Sort(keys)|
    ensures exists at :: SmallerAt(Sort(keys)[i], Sort(keys)[j], at)
  {
    SortAscending(keys);
    LaterIsGreater(Sort(keys), i, j);
    var at := LessHasPlace(Sort(keys)[i], Sort(keys)[j]);
  }
}
