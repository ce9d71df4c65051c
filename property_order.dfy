/** The enumeration order of the keys of a plain JavaScript object, as
    `Object.keys` reports it: assigning to a key that is not yet present puts
    it last, assigning to a present key leaves the order alone, and `delete`
    takes the key out while the others keep their relative order. */
module PropertyOrder {

  /** No key occurs twice. */
  predicate Distinct(s: seq<string>) {
    forall i, j :: 0 <= i < j < |s| ==> s[i] != s[j]
  }

  /** The keys of an order, as a set. */
  function Elements(s: seq<string>): set<string> {
    set x | x in s
  }

  /** The order after `obj[key] = value`. */
  function Assigned(s: seq<string>, key: string): (r: seq<string>)
    ensures forall x :: x in r <==> x in s || x == key
    ensures Distinct(s) ==> Distinct(r)
    ensures s <= r && |r| <= |s| + 1
  {
    if key in s then s else s + [key]
  }

  /** The order after `delete obj[key]`. */
  function Without(s: seq<string>, key: string): (r: seq<string>)
    ensures forall x :: x in r <==> x in s && x != key
    ensures Distinct(s) ==> Distinct(r)
    ensures |r| <= |s|
  {
    if s == [] then []
    else if s[0] == key then Without(s[1..], key)
    else
      DistinctTail(s);
      [s[0]] + Without(s[1..], key)
  }

  /** Deleting the key at position `i` of an order without repetitions
      removes exactly that position: the other keys keep their relative
      order. */
  lemma {:induction false} WithoutAt(s: seq<string>, i: nat)
    requires Distinct(s) && i < |s|
    ensures Without(s, s[i]) == s[..i] + s[i + 1..]
  {
    DistinctTail(s);
    if i == 0 {
      WithoutAbsent(s[1..], s[0]);
    } else {
      assert s[1..][i - 1] == s[i];
      WithoutAt(s[1..], i - 1);
      assert s[0] != s[i];
      assert s[..i] + s[i + 1..] == [s[0]] + (s[1..][..i - 1] + s[1..][i..]);
    }
  }

  /** Dropping the first key of an order without repetitions leaves an order
      without repetitions that no longer holds that key. */
  lemma DistinctTail(s: seq<string>)
    requires |s| > 0
    ensures Distinct(s) ==> Distinct(s[1..]) && s[0] !in s[1..]
  {
  }

  /** Assigning the same key twice orders the keys as assigning it once. */
  lemma AssignedIdempotent(s: seq<string>, key: string)
    ensures Assigned(Assigned(s, key), key) == Assigned(s, key)
  {
  }

  /** Deleting a key that is not there leaves the order unchanged. */
  lemma {:induction false} WithoutAbsent(s: seq<string>, key: string)
    requires key !in s
    ensures Without(s, key) == s
  {
    if s != [] {
      WithoutAbsent(s[1..], key);
    }
  }

  /** Deleting the first key of an order without repetitions drops exactly
      that key from the front. */
  lemma WithoutFirst(s: seq<string>)
    requires |s| > 0 && Distinct(s)
    ensures Without(s, s[0]) == s[1..]
  {
    DistinctTail(s);
    WithoutAbsent(s[1..], s[0]);
  }

  /** An order without repetitions has as many keys as it is long. */
  lemma {:induction false} DistinctCardinality(s: seq<string>)
    requires Distinct(s)
    ensures |Elements(s)| == |s|
  {
    if s != [] {
      DistinctTail(s);
      DistinctCardinality(s[1..]);
      assert Elements(s) == {s[0]} + Elements(s[1..]) by {
        forall x ensures x in Elements(s) <==> x == s[0] || x in Elements(s[1..]) {
          assert x in s <==> x == s[0] || x in s[1..] by {
            assert s == [s[0]] + s[1..];
          }
        }
      }
    }
  }
}
