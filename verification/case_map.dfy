/**
 * A map from strings to strings whose keys compare ignoring case, as TMap<FString, FString>
 * does (FString hashes and compares case-insensitively). The map is a Dafny map holding
 * the spelling last stored for each key; no two of its keys differ only in case.
 */
module CaseMap {
  import opened Text

  /** Some key of `m` equals `k` up to case. */
  predicate HasKeyIgnoreCase(m: map<string, string>, k: string) {
    exists g :: g in m && Lower(g) == Lower(k)
  }

  /** No two keys of `m` differ only in case: the shape every TMap<FString, …> has. */
  predicate CaseUnique(m: map<string, string>) {
    forall a, b :: a in m && b in m && Lower(a) == Lower(b) ==> a == b
  }

  /**
   * TMap::Add: an entry whose key equals `k` up to case is replaced, spelling included;
   * otherwise the entry is added.
   */
  function Add(m: map<string, string>, k: string, v: string): (r: map<string, string>)
    ensures k in r && r[k] == v
    ensures forall x :: x in m && Lower(x) != Lower(k) ==> x in r && r[x] == m[x]
    ensures forall x :: x in r ==> x == k || (x in m && Lower(x) != Lower(k))
    ensures CaseUnique(m) ==> CaseUnique(r)
  {
    (map x | x in m && Lower(x) != Lower(k) :: m[x])[k := v]
  }

  /**
   * `given` laid over `m`: every entry of `given`, and the entries of `m` whose key no key
   * of `given` equals up to case.
   */
  function Merge(m: map<string, string>, given: map<string, string>): (r: map<string, string>)
    ensures forall k :: k in given ==> k in r && r[k] == given[k]
    ensures forall k :: k in m && !HasKeyIgnoreCase(given, k) ==> k in r && r[k] == m[k]
    ensures forall k :: k in r ==> k in given || (k in m && !HasKeyIgnoreCase(given, k))
    ensures CaseUnique(m) && CaseUnique(given) ==> CaseUnique(r)
  {
    (map x | x in m && !HasKeyIgnoreCase(given, x) :: m[x]) + given
  }

  /** TMap::Add of each pair of `items`, in order, starting from `m`. */
  function AddItems(m: map<string, string>, items: seq<(string, string)>): map<string, string>
    decreases |items|
  {
    if |items| == 0 then m
    else Add(AddItems(m, items[..|items| - 1]), items[|items| - 1].0, items[|items| - 1].1)
  }

  /** No later pair of `items` has a key equal to that of pair `i` up to case. */
  predicate LastOfItsCase(items: seq<(string, string)>, i: int)
    requires 0 <= i < |items|
  {
    forall j :: i < j < |items| ==> Lower(items[j].0) != Lower(items[i].0)
  }

  /** The pairs of a Python dict: no key occurs twice. */
  predicate DistinctKeys(items: seq<(string, string)>) {
    forall i, j :: 0 <= i < j < |items| ==> items[i].0 != items[j].0
  }

  // ---------------------------------------------------------------------------
  // Adding pairs one by one

  /** Folding pairs into an empty map keeps, for each key up to case, the last pair's spelling and value. */
  lemma {:induction false} AddItemsLastWins(items: seq<(string, string)>, i: nat)
    requires i < |items| && LastOfItsCase(items, i)
    ensures items[i].0 in AddItems(map[], items) && AddItems(map[], items)[items[i].0] == items[i].1
    decreases |items|
  {
    var n := |items| - 1;
    var prefix := items[..n];
    var prev := AddItems(map[], prefix);
    assert AddItems(map[], items) == Add(prev, items[n].0, items[n].1);
    if i < n {
      assert items[i].0 in prev && prev[items[i].0] == items[i].1 by {
        assert LastOfItsCase(prefix, i) by {
          forall j | i < j < |prefix| ensures Lower(prefix[j].0) != Lower(prefix[i].0) {
            assert prefix[j] == items[j] && prefix[i] == items[i];
          }
        }
        AddItemsLastWins(prefix, i);
        assert prefix[i] == items[i];
      }
      assert Lower(items[n].0) != Lower(items[i].0);
    }
  }

  /** A pair last of its case among the earlier pairs stays so when the next pair's key differs from it in more than case. */
  lemma LastOfItsCaseExtend(items: seq<(string, string)>, i: nat)
    requires i < |items| - 1 && LastOfItsCase(items[..|items| - 1], i)
    requires Lower(items[|items| - 1].0) != Lower(items[i].0)
    ensures LastOfItsCase(items, i)
  {
    var prefix := items[..|items| - 1];
    forall j | i < j < |items| ensures Lower(items[j].0) != Lower(items[i].0) {
      if j < |items| - 1 {
        assert prefix[j] == items[j] && prefix[i] == items[i];
      }
    }
  }

  /** Every key of the folded map is the spelling of a pair that is the last of its case. */
  lemma {:induction false} AddItemsOnlyLast(items: seq<(string, string)>, k: string) returns (i: nat)
    requires k in AddItems(map[], items)
    ensures i < |items| && items[i].0 == k && LastOfItsCase(items, i)
    decreases |items|
  {
    var n := |items| - 1;
    var prefix := items[..n];
    var prev := AddItems(map[], prefix);
    assert AddItems(map[], items) == Add(prev, items[n].0, items[n].1);
    if k == items[n].0 {
      i := n;
    } else {
      assert k in prev && Lower(k) != Lower(items[n].0);
      i := AddItemsOnlyLast(prefix, k);
      assert items[i] == prefix[i];
      LastOfItsCaseExtend(items, i);
    }
  }

  /** Adding pairs keeps a map free of keys that differ only in case. */
  lemma {:induction false} AddItemsCaseUnique(m: map<string, string>, items: seq<(string, string)>)
    requires CaseUnique(m)
    ensures CaseUnique(AddItems(m, items))
    decreases |items|
  {
    if |items| > 0 {
      AddItemsCaseUnique(m, items[..|items| - 1]);
    }
  }

  /** Each pair has a pair at or after it, of the same key up to case, that is the last of its case. */
  lemma {:induction false} LastOfCaseExists(items: seq<(string, string)>, i: nat) returns (j: nat)
    requires i < |items|
    ensures i <= j < |items| && Lower(items[j].0) == Lower(items[i].0) && LastOfItsCase(items, j)
    decreases |items| - i
  {
    if LastOfItsCase(items, i) {
      j := i;
    } else {
      var k :| i < k < |items| && Lower(items[k].0) == Lower(items[i].0);
      j := LastOfCaseExists(items, k);
    }
  }

  /** The folded map has a key equal to `k` up to case exactly when some pair's key does. */
  lemma AddItemsHasKey(items: seq<(string, string)>, k: string)
    ensures HasKeyIgnoreCase(AddItems(map[], items), k) <==>
      exists i :: 0 <= i < |items| && Lower(items[i].0) == Lower(k)
  {
    var r := AddItems(map[], items);
    if i :| 0 <= i < |items| && Lower(items[i].0) == Lower(k) {
      var j := LastOfCaseExists(items, i);
      AddItemsLastWins(items, j);
      assert items[j].0 in r;
    }
    if HasKeyIgnoreCase(r, k) {
      var g :| g in r && Lower(g) == Lower(k);
      var i := AddItemsOnlyLast(items, g);
    }
  }

  // ---------------------------------------------------------------------------
  // The loop of SetTranslationOptions

  /** `items` lists the entries of `given`, each exactly once, in some order. */
  predicate Enumerates(items: seq<(string, string)>, given: map<string, string>) {
    && DistinctKeys(items)
    && (forall i :: 0 <= i < |items| ==> items[i].0 in given && given[items[i].0] == items[i].1)
    && (forall k :: k in given ==> exists i :: 0 <= i < |items| && items[i].0 == k)
  }

  /** The entries of `given` the pairs name. */
  function Listed(given: map<string, string>, items: seq<(string, string)>): map<string, string> {
    map k | k in given && exists i :: 0 <= i < |items| && items[i].0 == k :: given[k]
  }

  /** A key matches an updated map up to case exactly when it matches the old map or the new key. */
  lemma HasKeyUpdate(g: map<string, string>, k: string, v: string, x: string)
    ensures HasKeyIgnoreCase(g[k := v], x) <==> HasKeyIgnoreCase(g, x) || Lower(k) == Lower(x)
  {
    if HasKeyIgnoreCase(g, x) {
      var y :| y in g && Lower(y) == Lower(x);
      assert y in g[k := v];
    }
    if Lower(k) == Lower(x) {
      assert k in g[k := v];
    }
  }

  /** One more Add after a merge is the merge with one more entry, when no merged key clashes with it. */
  lemma AddAfterMerge(m: map<string, string>, g: map<string, string>, k: string, v: string)
    requires !HasKeyIgnoreCase(g, k)
    ensures Add(Merge(m, g), k, v) == Merge(m, g[k := v])
  {
    var merged := Merge(m, g);
    var lhs := Add(merged, k, v);
    var g' := g[k := v];
    var rhs := Merge(m, g');
    forall x | x in lhs
      ensures x in rhs && rhs[x] == lhs[x]
    {
      if x != k {
        assert x in merged && Lower(x) != Lower(k) && lhs[x] == merged[x];
        if x !in g {
          HasKeyUpdate(g, k, v, x);
        }
      }
    }
    forall x | x in rhs
      ensures x in lhs
    {
      if x !in g' {
        HasKeyUpdate(g, k, v, x);
        assert x in merged;
      } else if x != k {
        assert x in g && x in merged;
        assert Lower(x) != Lower(k);
      }
    }
  }

  /** Listing one more pair adds its entry. */
  lemma ListedStep(given: map<string, string>, items: seq<(string, string)>)
    requires |items| > 0
    requires forall i :: 0 <= i < |items| ==> items[i].0 in given && given[items[i].0] == items[i].1
    ensures Listed(given, items) == Listed(given, items[..|items| - 1])[items[|items| - 1].0 := items[|items| - 1].1]
  {
    var n := |items| - 1;
    var prefix := items[..n];
    var g := Listed(given, prefix);
    forall x | x in Listed(given, items)
      ensures x in g[items[n].0 := items[n].1]
    {
      var i :| 0 <= i < |items| && items[i].0 == x;
      if i < n {
        assert prefix[i].0 == x;
      }
    }
    forall x | x in g
      ensures x in Listed(given, items)
    {
      var i :| 0 <= i < |prefix| && prefix[i].0 == x;
      assert items[i].0 == x;
    }
    assert items[n].0 in Listed(given, items);
  }

  /** With distinct keys from a map without case clashes, the next pair clashes with no pair before it. */
  lemma ListedNoClash(given: map<string, string>, items: seq<(string, string)>)
    requires |items| > 0
    requires CaseUnique(given) && DistinctKeys(items)
    requires forall i :: 0 <= i < |items| ==> items[i].0 in given
    ensures !HasKeyIgnoreCase(Listed(given, items[..|items| - 1]), items[|items| - 1].0)
  {
  }

  /** Adding the listed pairs one by one merges the entries they list, whatever their order. */
  lemma {:induction false} AddItemsMergesListed(m: map<string, string>, given: map<string, string>,
                                                items: seq<(string, string)>)
    requires CaseUnique(given) && DistinctKeys(items)
    requires forall i :: 0 <= i < |items| ==> items[i].0 in given && given[items[i].0] == items[i].1
    ensures AddItems(m, items) == Merge(m, Listed(given, items))
    decreases |items|
  {
    if |items| == 0 {
      assert Listed(given, items) == map[];
    } else {
      var n := |items| - 1;
      var prefix := items[..n];
      var g := Listed(given, prefix);
      assert AddItems(m, items) == Add(AddItems(m, prefix), items[n].0, items[n].1);
      assert AddItems(m, prefix) == Merge(m, g) by {
        assert forall i :: 0 <= i < n ==> prefix[i] == items[i];
        AddItemsMergesListed(m, given, prefix);
      }
      assert Add(Merge(m, g), items[n].0, items[n].1) == Merge(m, g[items[n].0 := items[n].1]) by {
        ListedNoClash(given, items);
        AddAfterMerge(m, g, items[n].0, items[n].1);
      }
      ListedStep(given, items);
    }
  }

  /**
   * SetTranslationOptions adds the given entries one at a time in the map's iteration
   * order; whatever that order is, the outcome is the merge.
   */
  lemma AddItemsInAnyOrder(m: map<string, string>, given: map<string, string>, items: seq<(string, string)>)
    requires CaseUnique(given) && Enumerates(items, given)
    ensures AddItems(m, items) == Merge(m, given)
  {
    AddItemsMergesListed(m, given, items);
    assert Listed(given, items) == given;
  }
}
