/** `removeDuplicates` of `client/src/context/TaxonomyContext.jsx`: keeps the
    first occurrence of every taxonomy name, comparing names lower-cased and
    trimmed, and drops empty entries. The kept entries are returned as given.

    The deduplication is stated for any key function `key`; the context uses
    `Key`, `item.toLowerCase().trim()`. */
module Taxonomy {
  import opened Js

  /** The argument: something that is not an array (or `null`), or an array of names. */
  datatype Input = NotArray | Array(items: seq<string>)

  /** `item.toLowerCase().trim()`. */
  function Key(item: string): string
  {
    Trim(Lower(item))
  }

  /** Some name of `s` has key `k` (the `seen.has(k)` test). */
  predicate HasKey(key: string -> string, s: seq<string>, k: string)
  {
    exists i :: 0 <= i < |s| && key(s[i]) == k
  }

  /** The names the `filter` keeps from `items`, built element by element. */
  function Dedup(key: string -> string, items: seq<string>): (r: seq<string>)
    ensures forall x :: x in r ==> x in items && x != ""
  {
    if items == [] then []
    else
      var d := Dedup(key, items[..|items| - 1]);
      var last := items[|items| - 1];
      if last == "" || HasKey(key, d, key(last)) then d else d + [last]
  }

  /** `removeDuplicates(input)`. */
  function RemoveDuplicatesSpec(input: Input): seq<string>
  {
    if input.NotArray? then [] else Dedup(Key, input.items)
  }

  /** Position `i` holds a non-empty name whose key no earlier non-empty name has. */
  ghost predicate FirstOccurrence(key: string -> string, items: seq<string>, i: int)
    requires 0 <= i < |items|
  {
    items[i] != "" && forall j :: 0 <= j < i ==> items[j] == "" || key(items[j]) != key(items[i])
  }

  /** The names at the first-occurrence positions, in input order. */
  ghost function FirstOccurrences(key: string -> string, items: seq<string>): seq<string>
  {
    if items == [] then []
    else
      FirstOccurrences(key, items[..|items| - 1])
      + (if FirstOccurrence(key, items, |items| - 1) then [items[|items| - 1]] else [])
  }

  ghost predicate UniqueKeys(key: string -> string, s: seq<string>)
  {
    forall i, j :: 0 <= i < j < |s| ==> key(s[i]) != key(s[j])
  }

  // ---------------------------------------------------------------------------
  // Lemmas

  lemma HasKeyAppend(key: string -> string, s: seq<string>, x: string, k: string)
    ensures HasKey(key, s + [x], k) <==> HasKey(key, s, k) || key(x) == k
  {
    if HasKey(key, s + [x], k) {
      var i :| 0 <= i < |s + [x]| && key((s + [x])[i]) == k;
      if i < |s| { assert (s + [x])[i] == s[i]; }
    }
    if HasKey(key, s, k) {
      var i :| 0 <= i < |s| && key(s[i]) == k;
      assert (s + [x])[i] == s[i];
    }
    assert (s + [x])[|s|] == x;
  }

  /** The keys the result holds are the keys of all non-empty names. */
  lemma {:induction false} DedupKeys(key: string -> string, items: seq<string>, k: string)
    ensures HasKey(key, Dedup(key, items), k) <==> exists i :: 0 <= i < |items| && items[i] != "" && key(items[i]) == k
  {
    if items != [] {
      var init := items[..|items| - 1];
      DedupKeys(key, init, k);
      var d := Dedup(key, init);
      var last := items[|items| - 1];
      if !(last == "" || HasKey(key, d, key(last))) {
        HasKeyAppend(key, d, last, k);
      }
      if exists i :: 0 <= i < |items| && items[i] != "" && key(items[i]) == k {
        var i :| 0 <= i < |items| && items[i] != "" && key(items[i]) == k;
        if i < |init| {
          assert init[i] == items[i];
        } else if HasKey(key, d, key(last)) {
          assert key(last) == k;
        }
      }
      if exists i :: 0 <= i < |init| && init[i] != "" && key(init[i]) == k {
        var i :| 0 <= i < |init| && init[i] != "" && key(init[i]) == k;
        assert items[i] == init[i];
      }
    }
  }

  /** The result is exactly the first occurrence of each key, in input order. */
  lemma {:induction false} DedupIsFirstOccurrences(key: string -> string, items: seq<string>)
    ensures Dedup(key, items) == FirstOccurrences(key, items)
  {
    if items != [] {
      var init := items[..|items| - 1];
      var last := items[|items| - 1];
      DedupIsFirstOccurrences(key, init);
      DedupKeys(key, init, key(last));
      if last != "" {
        var d := Dedup(key, init);
        if HasKey(key, d, key(last)) {
          var j :| 0 <= j < |init| && init[j] != "" && key(init[j]) == key(last);
          assert items[j] == init[j];
          assert !FirstOccurrence(key, items, |items| - 1);
        } else {
          forall j | 0 <= j < |items| - 1 ensures items[j] == "" || key(items[j]) != key(last) {
            assert init[j] == items[j];
          }
        }
      }
    }
  }

  /** No two names in the result share a key. */
  lemma {:induction false} DedupUnique(key: string -> string, items: seq<string>)
    ensures UniqueKeys(key, Dedup(key, items))
  {
    if items != [] {
      var init := items[..|items| - 1];
      DedupUnique(key, init);
      var d := Dedup(key, init);
      var last := items[|items| - 1];
      if !(last == "" || HasKey(key, d, key(last))) {
        var r := d + [last];
        forall i, j | 0 <= i < j < |r| ensures key(r[i]) != key(r[j]) {
          if j == |d| {
            assert r[i] == d[i];
          }
        }
      }
    }
  }

  /** A list without empty names and without repeated keys is left as it is. */
  lemma {:induction false} DedupOfDistinct(key: string -> string, s: seq<string>)
    requires UniqueKeys(key, s)
    requires forall i :: 0 <= i < |s| ==> s[i] != ""
    ensures Dedup(key, s) == s
  {
    if s != [] {
      var init := s[..|s| - 1];
      DedupOfDistinct(key, init);
      assert !HasKey(key, init, key(s[|s| - 1]));
      assert init + [s[|s| - 1]] == s;
    }
  }

  /** Accented capitals fold too: `"ROSÉ"` repeats `"Rosé"` and is dropped. */
  lemma AccentedNamesFold()
    ensures RemoveDuplicatesSpec(Array(["Rosé", "ROSÉ"])) == ["Rosé"]
  {
    var a, b := "Rosé", "ROSÉ";
    SameKey(a, b);
    DedupPair(Key, a, b);
  }

  /** Names that differ only in case share a key. */
  lemma SameKey(a: string, b: string)
    requires |a| == |b|
    requires forall i :: 0 <= i < |a| ==> LowerChar(a[i]) == LowerChar(b[i])
    ensures Key(a) == Key(b)
  {
    assert Lower(a) == Lower(b);
  }

  /** A second name with the key of the first is dropped. */
  lemma DedupPair(key: string -> string, a: string, b: string)
    requires a != "" && key(a) == key(b)
    ensures Dedup(key, [a, b]) == [a]
  {
    var items := [a, b];
    assert items[..1] == [a] && items[1] == b;
    assert [a][..0] == [];
    assert !HasKey(key, [], key(a));
    assert Dedup(key, [a]) == [a];
    assert HasKey(key, [a], key(b)) by {
      assert key([a][0]) == key(b);
    }
    assert HasKey(key, Dedup(key, items[..1]), key(items[1]));
  }

  /** `removeDuplicates` is idempotent, and a non-array input gives `[]`. */
  lemma RemoveDuplicatesIdempotent(input: Input)
    ensures RemoveDuplicatesSpec(Array(RemoveDuplicatesSpec(input))) == RemoveDuplicatesSpec(input)
    ensures input.NotArray? ==> RemoveDuplicatesSpec(input) == []
  {
    var r := RemoveDuplicatesSpec(input);
    assert forall i :: 0 <= i < |r| ==> r[i] in r;
    if input.Array? {
      DedupUnique(Key, input.items);
    }
    DedupOfDistinct(Key, r);
  }

  /** The `filter` with its `seen` map, for a key function `key`. */
  method FilterFirst(key: string -> string, names: seq<string>) returns (result: seq<string>)
    ensures result == Dedup(key, names)
  {
    var seen: set<string> := {};
    result := [];
    var i := 0;
    while i < |names|
      invariant 0 <= i <= |names|
      invariant result == Dedup(key, names[..i])
      invariant forall k :: k in seen <==> HasKey(key, result, k)
    {
      var item := names[i];
      assert names[..i + 1][..i] == names[..i];
      if item != "" {
        var itemLower := key(item);
        if itemLower !in seen {
          forall k ensures HasKey(key, result + [item], k) <==> HasKey(key, result, k) || k == itemLower {
            HasKeyAppend(key, result, item, k);
          }
          seen := seen + {itemLower};
          result := result + [item];
        }
      }
      i := i + 1;
    }
    assert names[..i] == names;
  }

  /** `removeDuplicates`. */
  method RemoveDuplicates(input: Input) returns (result: seq<string>)
    ensures result == RemoveDuplicatesSpec(input)
  {
    if input.NotArray? {
      return [];
    }
    result := FilterFirst(Key, input.items);
  }
}
