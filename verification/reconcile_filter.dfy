/** The removal-only reconciliation of the displayed list against the keys
    the favorites store holds now. Each item's key is rebuilt from its
    source and id, and the item stays only if that key is still stored. */
module ReconcileFilter {
  import opened FavoriteTypes
  import opened CompositeKey
  import opened LoadPipeline

  /** The one update-bus event the panel reacts to. */
  const FavoritesUpdated: string := "favoritesUpdated"

  /** `Object.keys` of the favorites mapping, in enumeration order. */
  function StoreKeys(entries: seq<Entry>): (keys: seq<string>)
    ensures |keys| == |entries|
    ensures forall i :: 0 <= i < |entries| ==> keys[i] == entries[i].key
  {
    seq(|entries|, i requires 0 <= i < |entries| => entries[i].key)
  }

  /** The key rebuilt from a displayed item. */
  function RebuildKey(item: FavoriteItem): (key: string)
  {
    JoinKey(item.source, item.id)
  }

  /** `prevItems.filter(...)`: the items whose rebuilt key is among
      `currentKeys`, in their order. */
  function KeepStored(items: seq<FavoriteItem>, currentKeys: seq<string>): (kept: seq<FavoriteItem>)
  {
    if items == [] then []
    else (if RebuildKey(items[0]) in currentKeys then [items[0]] else [])
         + KeepStored(items[1..], currentKeys)
  }

  /** `a` is `b` with some elements left out, the rest in their order. */
  ghost predicate IsSubsequence(a: seq<FavoriteItem>, b: seq<FavoriteItem>)
    decreases |b|
  {
    a == [] || (b != [] && ((a[0] == b[0] && IsSubsequence(a[1..], b[1..])) || IsSubsequence(a, b[1..])))
  }

  lemma {:induction false} SubsequenceTransitive(a: seq<FavoriteItem>, b: seq<FavoriteItem>, c: seq<FavoriteItem>)
    requires IsSubsequence(a, b) && IsSubsequence(b, c)
    ensures IsSubsequence(a, c)
    decreases |c|
  {
    if a != [] {
      if IsSubsequence(b, c[1..]) {
        SubsequenceTransitive(a, b, c[1..]);
      } else if a[0] == b[0] && IsSubsequence(a[1..], b[1..]) {
        SubsequenceTransitive(a[1..], b[1..], c[1..]);
      } else {
        SubsequenceTransitive(a, b[1..], c[1..]);
      }
    }
  }

  /** A subsequence is no longer than the sequence and adds nothing to it. */
  lemma {:induction false} SubsequenceAddsNothing(a: seq<FavoriteItem>, b: seq<FavoriteItem>)
    requires IsSubsequence(a, b)
    ensures |a| <= |b|
    ensures forall x :: x in a ==> x in b
    decreases |b|
  {
    if a != [] {
      if a[0] == b[0] && IsSubsequence(a[1..], b[1..]) {
        SubsequenceAddsNothing(a[1..], b[1..]);
        assert a == [a[0]] + a[1..] && b == [b[0]] + b[1..];
      } else {
        SubsequenceAddsNothing(a, b[1..]);
        assert b == [b[0]] + b[1..];
      }
    }
  }

  lemma {:induction false} SubsequenceReflexive(a: seq<FavoriteItem>)
    ensures IsSubsequence(a, a)
    decreases |a|
  {
    if a != [] {
      SubsequenceReflexive(a[1..]);
    }
  }

  /** Reconciliation keeps items in their order and never adds one. */
  lemma {:induction false} KeepStoredIsSubsequence(items: seq<FavoriteItem>, currentKeys: seq<string>)
    ensures IsSubsequence(KeepStored(items, currentKeys), items)
    decreases |items|
  {
    if items != [] {
      var rest := KeepStored(items[1..], currentKeys);
      KeepStoredIsSubsequence(items[1..], currentKeys);
      if RebuildKey(items[0]) in currentKeys {
        assert KeepStored(items, currentKeys) == [items[0]] + rest;
        assert ([items[0]] + rest)[1..] == rest;
      } else {
        assert KeepStored(items, currentKeys) == rest;
      }
    }
  }

  /** Reconciliation keeps exactly the items whose rebuilt key is stored:
      every copy of such an item stays, every copy of any other goes. */
  lemma {:induction false} KeepStoredCounts(items: seq<FavoriteItem>, currentKeys: seq<string>, x: FavoriteItem)
    ensures multiset(KeepStored(items, currentKeys))[x]
         == if RebuildKey(x) in currentKeys then multiset(items)[x] else 0
  {
    if items != [] {
      KeepStoredCounts(items[1..], currentKeys, x);
      assert items == [items[0]] + items[1..];
    }
  }

  /** An item is displayed after reconciliation exactly when it was
      displayed before and its rebuilt key is stored. */
  lemma KeepStoredMembers(items: seq<FavoriteItem>, currentKeys: seq<string>, x: FavoriteItem)
    ensures x in KeepStored(items, currentKeys) <==> x in items && RebuildKey(x) in currentKeys
  {
    KeepStoredCounts(items, currentKeys, x);
    assert x in KeepStored(items, currentKeys) <==> multiset(KeepStored(items, currentKeys))[x] > 0;
    assert x in items <==> multiset(items)[x] > 0;
  }

  /** The filter removes nothing exactly when every rebuilt key is stored. */
  lemma {:induction false} KeepStoredUnchanged(items: seq<FavoriteItem>, currentKeys: seq<string>)
    ensures KeepStored(items, currentKeys) == items
        <==> forall i :: 0 <= i < |items| ==> RebuildKey(items[i]) in currentKeys
  {
    if items != [] {
      KeepStoredUnchanged(items[1..], currentKeys);
      KeepStoredIsSubsequence(items[1..], currentKeys);
      SubsequenceAddsNothing(KeepStored(items[1..], currentKeys), items[1..]);
      if forall i :: 0 <= i < |items| ==> RebuildKey(items[i]) in currentKeys {
        assert forall i :: 0 <= i < |items[1..]| ==> RebuildKey(items[1..][i]) in currentKeys by {
          forall i | 0 <= i < |items[1..]| ensures RebuildKey(items[1..][i]) in currentKeys {
            assert items[1..][i] == items[i + 1];
          }
        }
      } else if RebuildKey(items[0]) in currentKeys {
        var j :| 0 <= j < |items| && RebuildKey(items[j]) !in currentKeys;
        assert items[1..][j - 1] == items[j];
        assert KeepStored(items, currentKeys)[1..] == KeepStored(items[1..], currentKeys);
      }
    }
  }

  /** Reconciling twice against the same keys is reconciling once. */
  lemma {:induction false} KeepStoredIdempotent(items: seq<FavoriteItem>, currentKeys: seq<string>)
    ensures KeepStored(KeepStored(items, currentKeys), currentKeys) == KeepStored(items, currentKeys)
  {
    var once := KeepStored(items, currentKeys);
    KeepStoredUnchanged(once, currentKeys);
    forall i | 0 <= i < |once| ensures RebuildKey(once[i]) in currentKeys {
      KeepStoredMembers(items, currentKeys, once[i]);
    }
  }

  /** Reconciling a freshly loaded list against the same store keeps every
      item whose key contains a separator. */
  lemma ReconcileAfterLoadKeepsAll(entries: seq<Entry>, playRecords: map<string, PlayRecord>)
    requires forall i :: 0 <= i < |entries| ==> Separator in entries[i].key
    ensures KeepStored(LoadedItems(entries, playRecords), StoreKeys(entries))
         == LoadedItems(entries, playRecords)
  {
    var items := LoadedItems(entries, playRecords);
    var keys := StoreKeys(entries);
    LoadedItemsPermute(entries, playRecords);
    forall i | 0 <= i < |items| ensures RebuildKey(items[i]) in keys {
      assert items[i] in multiset(JoinAll(entries, playRecords));
      var j :| 0 <= j < |entries| && JoinAll(entries, playRecords)[j] == items[i];
      JoinAllAt(entries, playRecords, j);
      assert keys[j] == entries[j].key;
    }
    KeepStoredUnchanged(items, keys);
  }

  /** For a favorite whose key has no separator, reconciliation tests a
      different key from the stored one: the item stays exactly when it was
      displayed and the store holds that rebuilt key, whether or not the
      store still holds the favorite's own key. */
  lemma UnseparatedKeyReconcile(e: Entry, playRecords: map<string, PlayRecord>,
                                items: seq<FavoriteItem>, currentKeys: seq<string>)
    requires Separator !in e.key
    ensures var item := Join(e, playRecords);
      && RebuildKey(item) != e.key
      && (item in KeepStored(items, currentKeys) <==> item in items && RebuildKey(item) in currentKeys)
  {
    KeepStoredMembers(items, currentKeys, Join(e, playRecords));
  }

  /** In particular, a favorite whose key has no separator is dropped by a
      reconciliation against a store that holds exactly that key. */
  lemma UnseparatedKeyDropped(e: Entry, playRecords: map<string, PlayRecord>)
    requires Separator !in e.key
    ensures KeepStored([Join(e, playRecords)], StoreKeys([e])) == []
  {
  }
}
