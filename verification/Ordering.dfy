/** Lexicographic order of strings by code point, which is the byte order of their UTF-8
    form; sorting and binary search by key. */
module Ordering {

  predicate Before(a: string, b: string) {
    if b == "" then false
    else if a == "" then true
    else if a[0] != b[0] then a[0] < b[0]
    else Before(a[1..], b[1..])
  }

  lemma {:induction false} Trichotomy(a: string, b: string)
    ensures a == b || Before(a, b) || Before(b, a)
    ensures !(Before(a, b) && Before(b, a)) && !Before(a, a)
  {
    if a != "" && b != "" && a[0] == b[0] {
      Trichotomy(a[1..], b[1..]);
      assert a == [a[0]] + a[1..] && b == [b[0]] + b[1..];
    }
    if a != "" {
      Trichotomy(a[1..], a[1..]);
    }
  }

  lemma {:induction false} Transitivity(a: string, b: string, c: string)
    requires Before(a, b) && Before(b, c)
    ensures Before(a, c)
  {
    if a != "" && a[0] == b[0] == c[0] {
      Transitivity(a[1..], b[1..], c[1..]);
    }
  }

  /** Neither order of equal keys is wrong. */
  predicate Ordered(keys: seq<string>) { forall i, j | 0 <= i < j < |keys| :: !Before(keys[j], keys[i]) }

  predicate StrictlyOrdered(keys: seq<string>) { forall i, j | 0 <= i < j < |keys| :: Before(keys[i], keys[j]) }

  lemma OrderedThen(keys: seq<string>, target: string, i: nat, j: nat)
    requires Ordered(keys) && i <= j < |keys|
    ensures Before(keys[j], target) ==> Before(keys[i], target)
  {
    if Before(keys[j], target) && i < j {
      Trichotomy(keys[i], keys[j]);
      if Before(keys[i], keys[j]) {
        Transitivity(keys[i], keys[j], target);
      }
    }
  }

  /** sort.Search for the first key not before the target. */
  method Search(keys: seq<string>, target: string) returns (index: nat)
    requires Ordered(keys)
    ensures index <= |keys|
    ensures forall k | 0 <= k < index :: Before(keys[k], target)
    ensures forall k | index <= k < |keys| :: !Before(keys[k], target)
  {
    index := 0;
    var j := |keys|;
    while index < j
      invariant 0 <= index <= j <= |keys|
      invariant forall k | 0 <= k < index :: Before(keys[k], target)
      invariant forall k | j <= k < |keys| :: !Before(keys[k], target)
    {
      var h := (index + j) / 2;
      if Before(keys[h], target) {
        forall k | 0 <= k < h + 1 ensures Before(keys[k], target) { OrderedThen(keys, target, k, h); }
        index := h + 1;
      } else {
        forall k | h <= k < |keys| ensures !Before(keys[k], target) { OrderedThen(keys, target, h, k); }
        j := h;
      }
    }
  }

  method Contains(keys: seq<string>, target: string) returns (found: bool)
    requires Ordered(keys)
    ensures found <==> target in keys
  {
    var index := Search(keys, target);
    found := index < |keys| && keys[index] == target;
    if target in keys {
      var k :| 0 <= k < |keys| && keys[k] == target;
      Trichotomy(target, target);
      assert index <= k;
      if index < k {
        Trichotomy(keys[index], target);
        assert !Before(keys[k], keys[index]);
      }
    }
  }

  // ---------------------------------------------------------------- sorting by key

  function Keys<T>(items: seq<T>, key: T -> string): (keys: seq<string>)
    ensures |keys| == |items|
    ensures forall i | 0 <= i < |items| :: keys[i] == key(items[i])
  {
    seq(|items|, i requires 0 <= i < |items| => key(items[i]))
  }

  function InsertBy<T>(x: T, items: seq<T>, key: T -> string): seq<T> {
    if items == [] then [x]
    else if Before(key(x), key(items[0])) then [x] + items
    else [items[0]] + InsertBy(x, items[1..], key)
  }

  function SortBy<T>(items: seq<T>, key: T -> string): seq<T> {
    if items == [] then [] else InsertBy(items[0], SortBy(items[1..], key), key)
  }

  lemma {:induction false} InsertKeeps<T>(x: T, items: seq<T>, key: T -> string)
    ensures multiset(InsertBy(x, items, key)) == multiset{x} + multiset(items)
  {
    if items != [] && !Before(key(x), key(items[0])) {
      InsertKeeps(x, items[1..], key);
      assert items == [items[0]] + items[1..];
    }
  }

  lemma {:induction false} SortKeeps<T>(items: seq<T>, key: T -> string)
    ensures multiset(SortBy(items, key)) == multiset(items)
  {
    if items != [] {
      SortKeeps(items[1..], key);
      InsertKeeps(items[0], SortBy(items[1..], key), key);
      assert items == [items[0]] + items[1..];
    }
  }

  /** No key of `items` is before `k`. */
  predicate AtLeast<T>(items: seq<T>, key: T -> string, k: string) {
    forall i | 0 <= i < |items| :: !Before(key(items[i]), k)
  }

  predicate OrderedBy<T>(items: seq<T>, key: T -> string) {
    forall i, j | 0 <= i < j < |items| :: !Before(key(items[j]), key(items[i]))
  }

  lemma OrderedCons<T>(x: T, items: seq<T>, key: T -> string)
    requires OrderedBy(items, key) && AtLeast(items, key, key(x))
    ensures OrderedBy([x] + items, key)
  {
  }

  lemma {:induction false} InsertOrders<T>(x: T, items: seq<T>, key: T -> string)
    requires OrderedBy(items, key)
    ensures OrderedBy(InsertBy(x, items, key), key)
    ensures forall k | AtLeast(items, key, k) && !Before(key(x), k) :: AtLeast(InsertBy(x, items, key), key, k)
  {
    if items == [] {
    } else if Before(key(x), key(items[0])) {
      forall i | 0 <= i < |items| ensures !Before(key(items[i]), key(x)) {
        if Before(key(items[i]), key(x)) {
          Transitivity(key(items[i]), key(x), key(items[0]));
          Trichotomy(key(items[0]), key(items[0]));
        }
      }
      OrderedCons(x, items, key);
    } else {
      InsertOrders(x, items[1..], key);
      var rest := InsertBy(x, items[1..], key);
      assert AtLeast(items[1..], key, key(items[0]));
      assert AtLeast(rest, key, key(items[0]));
      OrderedCons(items[0], rest, key);
      forall k | AtLeast(items, key, k) && !Before(key(x), k) ensures AtLeast([items[0]] + rest, key, k) {
        assert AtLeast(items[1..], key, k);
        assert AtLeast(rest, key, k);
      }
    }
  }

  lemma {:induction false} SortOrders<T>(items: seq<T>, key: T -> string)
    ensures OrderedBy(SortBy(items, key), key)
  {
    if items != [] {
      SortOrders(items[1..], key);
      InsertOrders(items[0], SortBy(items[1..], key), key);
    }
  }

  lemma SameMembers<T>(items: seq<T>, key: T -> string)
    ensures forall x :: x in SortBy(items, key) <==> x in items
  {
    SortKeeps(items, key);
    assert forall x :: x in SortBy(items, key) <==> x in multiset(SortBy(items, key));
    assert forall x :: x in items <==> x in multiset(items);
  }
}
