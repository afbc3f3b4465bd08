/** The state of the favorites panel (its `favoriteItems` and `loading`
    state variables) and the three handlers that write it: the load on
    opening, clear-all, and the update-bus reconciliation. Store calls are
    parameters holding how each awaited call settled. */
module FavoritesPanel {
  import opened FavoriteTypes
  import opened LoadPipeline
  import opened ReconcileFilter

  /** The card type handed to each video card: `'tv'` for a favorite with
      more than one episode, `''` otherwise. The test is JavaScript's
      `episodes && episodes > 1`, where a missing or zero count is falsy. */
  function CardType(item: FavoriteItem): (kind: string)
    ensures kind == "tv" <==> item.episodes.Some? && item.episodes.value > 1
    ensures kind != "tv" ==> kind == ""
  {
    match item.episodes
    case None => ""
    case Some(n) => if n != 0 && n > 1 then "tv" else ""
  }

  class Panel {
    var items: seq<FavoriteItem>
    var loading: bool
    /** The list the last successful load stored. */
    ghost var lastLoad: seq<FavoriteItem>

    /** What is displayed is the last loaded list with some items removed,
        in the loaded order. */
    ghost predicate Valid()
      reads this
    {
      IsSubsequence(items, lastLoad)
    }

    constructor ()
      ensures Valid()
      ensures items == [] && !loading
      ensures lastLoad == []
    {
      items := [];
      loading := false;
      lastLoad := [];
    }

    /** `loadFavorites`: raises the loading flag, reads both stores, and on
        success stores the joined list sorted by save time. A rejected read
        leaves the list as it was; the flag is lowered either way. */
    method Load(favorites: Outcome<seq<Entry>>, playRecords: Outcome<map<string, PlayRecord>>)
      requires Valid()
      modifies this
      ensures Valid()
      ensures !loading
      ensures items == if favorites.Resolved? && playRecords.Resolved?
                       then LoadedItems(favorites.value, playRecords.value)
                       else old(items)
      ensures lastLoad == if favorites.Resolved? && playRecords.Resolved?
                          then items
                          else old(lastLoad)
    {
      loading := true;
      if favorites.Resolved? && playRecords.Resolved? {
        items := LoadedItems(favorites.value, playRecords.value);
        lastLoad := items;
        SubsequenceReflexive(items);
      }
      loading := false;
    }

    /** `handleClearAll`: empties the list once the store confirms the
        clear, and leaves it alone when the clear is rejected. Only the
        list is written: the loading flag and the play records are not. */
    method ClearAll(cleared: Outcome<()>)
      requires Valid()
      modifies this`items
      ensures Valid()
      ensures items == if cleared.Resolved? then [] else old(items)
    {
      if cleared.Resolved? {
        items := [];
      }
    }

    /** The update-bus callback: on `favoritesUpdated` while the panel is
        open, it reads the favorites store and keeps only the items whose
        rebuilt key the store still holds. Any other event, a closed panel
        or a rejected read leaves the list alone. */
    method Reconcile(event: string, isOpen: bool, favorites: Outcome<seq<Entry>>)
      requires Valid()
      modifies this`items
      ensures Valid()
      ensures items == if event == FavoritesUpdated && isOpen && favorites.Resolved?
                       then KeepStored(old(items), StoreKeys(favorites.value))
                       else old(items)
      ensures IsSubsequence(items, old(items))
    {
      if event == FavoritesUpdated && isOpen {
        match favorites
        case Rejected =>
          SubsequenceReflexive(items);
        case Resolved(allFavorites) =>
          var currentKeys := StoreKeys(allFavorites);
          var kept := KeepStored(items, currentKeys);
          KeepStoredIsSubsequence(items, currentKeys);
          SubsequenceTransitive(kept, items, lastLoad);
          items := kept;
      } else {
        SubsequenceReflexive(items);
      }
    }
  }
}
