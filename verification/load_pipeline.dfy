/** The transform inside `loadFavorites`: every favorites entry is split
    into source and id, joined with the play record stored under the same
    key, and the list is ordered by save time before the items are built. */
module LoadPipeline {
  import opened FavoriteTypes
  import opened CompositeKey
  import opened SaveTimeOrder

  /** The item built from one entry. The play record is looked up under
      exactly the entry's key; `currentEpisode` is its index, or absent. */
  function Join(e: Entry, playRecords: map<string, PlayRecord>): (item: FavoriteItem)
    ensures && item.title == e.fav.title && item.year == e.fav.year
            && item.poster == e.fav.cover && item.episodes == e.fav.totalEpisodes
            && item.sourceName == e.fav.sourceName && item.searchTitle == e.fav.searchTitle
            && item.origin == e.fav.origin
    ensures item.currentEpisode.Some? <==> e.key in playRecords
    ensures e.key in playRecords ==> item.currentEpisode.value == playRecords[e.key].index
    ensures Separator in e.key ==>
      JoinKey(item.source, item.id) == e.key && Separator !in item.source
    ensures Separator !in e.key ==> JoinKey(item.source, item.id) != e.key
  {
    var parts := SplitKey(e.key);
    RejoinSplit(e.key);
    var currentEpisode := if e.key in playRecords then Some(playRecords[e.key].index) else None;
    FavoriteItem(
      parts.id,
      parts.source,
      e.fav.title,
      e.fav.year,
      e.fav.cover,
      e.fav.totalEpisodes,
      e.fav.sourceName,
      currentEpisode,
      e.fav.searchTitle,
      e.fav.origin)
  }

  /** The `.map(...)` over the entries: one item per entry, in order. */
  function JoinAll(entries: seq<Entry>, playRecords: map<string, PlayRecord>): (items: seq<FavoriteItem>)
    ensures |items| == |entries|
  {
    if entries == [] then []
    else [Join(entries[0], playRecords)] + JoinAll(entries[1..], playRecords)
  }

  /** Item `i` of the mapped list is the item built from entry `i`. */
  lemma {:induction false} JoinAllAt(entries: seq<Entry>, playRecords: map<string, PlayRecord>, i: nat)
    requires i < |entries|
    ensures JoinAll(entries, playRecords)[i] == Join(entries[i], playRecords)
  {
    if i > 0 {
      JoinAllAt(entries[1..], playRecords, i - 1);
    }
  }

  /** The list `loadFavorites` stores: the entries sorted by save time,
      then mapped to items. */
  function LoadedItems(entries: seq<Entry>, playRecords: map<string, PlayRecord>): (items: seq<FavoriteItem>)
  {
    JoinAll(SortBySaveTime(entries), playRecords)
  }

  lemma JoinAllCons(x: Entry, s: seq<Entry>, playRecords: map<string, PlayRecord>)
    ensures JoinAll([x] + s, playRecords) == [Join(x, playRecords)] + JoinAll(s, playRecords)
  {
    assert ([x] + s)[1..] == s;
  }

  lemma {:induction false} JoinAllInsert(x: Entry, s: seq<Entry>, playRecords: map<string, PlayRecord>)
    ensures multiset(JoinAll(Insert(x, s), playRecords))
         == multiset(JoinAll(s, playRecords)) + multiset{Join(x, playRecords)}
  {
    if s != [] && s[0].fav.saveTime > x.fav.saveTime {
      JoinAllInsert(x, s[1..], playRecords);
      JoinAllCons(s[0], Insert(x, s[1..]), playRecords);
      JoinAllCons(s[0], s[1..], playRecords);
      assert s == [s[0]] + s[1..];
    } else {
      JoinAllCons(x, s, playRecords);
    }
  }

  /** The loaded list is a permutation of the items of the entries taken
      in enumeration order: one item per entry, none added or lost. */
  lemma {:induction false} LoadedItemsPermute(entries: seq<Entry>, playRecords: map<string, PlayRecord>)
    ensures multiset(LoadedItems(entries, playRecords)) == multiset(JoinAll(entries, playRecords))
  {
    if entries != [] {
      var head, tail := entries[0], entries[1..];
      var sortedTail := SortBySaveTime(tail);
      assert entries == [head] + tail;
      calc {
        multiset(LoadedItems(entries, playRecords));
        multiset(JoinAll(Insert(head, sortedTail), playRecords));
        { JoinAllInsert(head, sortedTail, playRecords); }
        multiset(JoinAll(sortedTail, playRecords)) + multiset{Join(head, playRecords)};
        { LoadedItemsPermute(tail, playRecords); }
        multiset(JoinAll(tail, playRecords)) + multiset{Join(head, playRecords)};
        { JoinAllCons(head, tail, playRecords); }
        multiset(JoinAll(entries, playRecords));
      }
    }
  }

  /** Item `i` of the loaded list comes from entry `i` of an arrangement of
      the entries that is ordered by save time, most recent first, keeps
      entries with equal save times in enumeration order, and is a
      permutation of the entries. */
  lemma LoadedItemsOrder(entries: seq<Entry>, playRecords: map<string, PlayRecord>)
    ensures var order := SortBySaveTime(entries);
      && NonIncreasing(order)
      && multiset(order) == multiset(entries)
      && (forall t :: SavedAt(order, t) == SavedAt(entries, t))
      && |LoadedItems(entries, playRecords)| == |order|
      && forall i :: 0 <= i < |order| ==>
           LoadedItems(entries, playRecords)[i] == Join(order[i], playRecords)
  {
    SortIsOrdered(entries);
    SortPermutes(entries);
    forall i | 0 <= i < |entries|
      ensures LoadedItems(entries, playRecords)[i] == Join(SortBySaveTime(entries)[i], playRecords)
    {
      JoinAllAt(SortBySaveTime(entries), playRecords, i);
    }
    forall t ensures SavedAt(SortBySaveTime(entries), t) == SavedAt(entries, t) {
      SortIsStable(entries, t);
    }
  }

  /** Two favorites saved at 100 and 200, with a play record for the
      later one only: the later one comes first and carries its episode. */
  lemma LoadExample()
    ensures var x := FavoriteRecord("X", "", "", None, None, None, None, 100);
      var y := FavoriteRecord("Y", "", "", None, None, None, None, 200);
      var items := LoadedItems([Entry("a+1", x), Entry("b+2", y)], map["b+2" := PlayRecord(3)]);
      && |items| == 2
      && items[0].source == "b" && items[0].id == "2" && items[0].title == "Y"
      && items[0].currentEpisode == Some(3)
      && items[1].source == "a" && items[1].id == "1" && items[1].title == "X"
      && items[1].currentEpisode == None
  {
  }
}
