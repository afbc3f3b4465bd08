# Favorites panel view model

A Dafny model of the view model behind the favorites panel of MoonTVPlus
(`src/components/FavoritesPanel.tsx`). The panel keeps two pieces of state:
the displayed list of favorites and a loading flag. Three handlers write that
state:

- **Load** runs when the panel opens. It reads the favorites mapping and the
  play-record mapping. It orders the favorites by save time, most recent
  first, and turns each `source+id` key into a displayed item. Each item is
  joined with the play record stored under the same key.
- **Clear-all** empties the list once the favorites store confirms the clear.
- **Reconcile** reacts to the `favoritesUpdated` event while the panel is
  open. It rebuilds each displayed item's key and drops the items whose key
  the store no longer holds. It only ever removes items.

The model has six modules:

- `FavoriteTypes` holds the records.
- `CompositeKey` holds the key split done with `indexOf` and `slice`, with the
  JavaScript semantics of both, and the key rebuild.
- `SaveTimeOrder` holds the stable descending sort.
- `LoadPipeline` holds the join and the load transform.
- `ReconcileFilter` holds the reconciliation filter.
- `FavoritesPanel` holds the card-type classification and a class `Panel`.
  Its fields `items` and `loading` are the two state variables, and its
  methods are the three handlers.

Store reads and the clear are inputs of type `Outcome`: the awaited promise
either resolves with a value or rejects. The favorites mapping is the
sequence of its `Object.entries` pairs, in enumeration order. The play
records are a `map` from key to record.

What the model shows:

- A key that contains `+` splits into the part before its first `+` and the
  part after it, and rebuilding `source + "+" + id` gives the key back.
- A key without `+` does not come back. `indexOf` returns -1, so `source`
  is the key without its last character and `id` is the whole key. The
  rebuilt key is a different string, so reconciliation tests that other
  key. It drops the favorite even while the store still holds it, unless
  the store also holds the rebuilt key (`UnseparatedKeyReconcile`,
  `UnseparatedKeyDropped`).
- The loaded list is a stable sort by save time. `SortUnique` shows that
  every arrangement that is ordered and keeps ties in input order is the
  modelled one, so the model does not depend on which stable sort the
  JavaScript engine uses.

## Model

| member | source | states |
|---|---|---|
| `CompositeKey.IndexOf` | src/components/FavoritesPanel.tsx:52 | `key.indexOf('+')`: -1 exactly when the key has no `+`; otherwise the position of a `+` with none before it |
| `CompositeKey.SplitKey` | src/components/FavoritesPanel.tsx:52-54 | with a `+`, `source` is the prefix before the first `+` (and holds no `+`) and `id` is everything after it; without one, `source` is the key minus its last character and `id` is the whole key |
| `CompositeKey.JoinKey` | src/components/FavoritesPanel.tsx:109 | the rebuilt key `${source}+${id}` always contains a `+` |
| `CompositeKey.RejoinSplit` | src/components/FavoritesPanel.tsx:52-54 | rebuilding the split parts gives the key back if and only if the key contains a `+` |
| `CompositeKey.SplitJoin` | src/components/FavoritesPanel.tsx:52-54 | splitting `source + "+" + id` gives back exactly `(source, id)` if and only if `source` holds no `+` |
| `CompositeKey.RejoinWithoutSeparator` | src/components/FavoritesPanel.tsx:52-54 | for a key without `+`, the rebuilt key differs from it and is twice as long, or is `"+"` for the empty key |
| `SaveTimeOrder.SortIsOrdered` | src/components/FavoritesPanel.tsx:49-50 | the sorted entries have non-increasing save times, so the most recent comes first |
| `SaveTimeOrder.SortPermutes` | src/components/FavoritesPanel.tsx:49-50 | the sorted entries are a permutation of the entries: same multiset, same length |
| `SaveTimeOrder.SortIsStable` | src/components/FavoritesPanel.tsx:49-50 | for every save time, the entries saved at that time appear in the sorted list in their enumeration order (stability) |
| `SaveTimeOrder.SortUnique` | src/components/FavoritesPanel.tsx:49-50 | any arrangement ordered by save time that keeps equal-time entries in input order equals the modelled sort |
| `LoadPipeline.Join` | src/components/FavoritesPanel.tsx:51-71 | title, year, source name, search title and origin are copied, `poster` is the cover and `episodes` is `total_episodes`; `currentEpisode` is present exactly when a play record exists under the entry's exact key, and is then that record's index; for a key with `+` the item's source and id rebuild the key, for a key without `+` they do not |
| `LoadPipeline.JoinAllAt` | src/components/FavoritesPanel.tsx:51-72 | item `i` of the mapped list is the item joined from entry `i` |
| `LoadPipeline.LoadedItemsPermute` | src/components/FavoritesPanel.tsx:49-72 | the loaded list is a permutation of the per-entry items in enumeration order: one item per entry, none added or lost |
| `LoadPipeline.LoadedItemsOrder` | src/components/FavoritesPanel.tsx:49-72 | item `i` of the loaded list is joined from entry `i` of an arrangement that is ordered by save time, stable and a permutation of the entries |
| `LoadPipeline.LoadExample` | src/components/FavoritesPanel.tsx:45-72 | favorites `a+1` saved at 100 and `b+2` at 200, with a play record of index 3 for `b+2`, load as `[b/2 "Y" episode 3, a/1 "X" no episode]` |
| `ReconcileFilter.KeepStoredIsSubsequence` | src/components/FavoritesPanel.tsx:107-112 | reconciliation returns an order-preserving subsequence of the previous list, so it never adds an item |
| `ReconcileFilter.KeepStoredCounts` | src/components/FavoritesPanel.tsx:107-112 | every occurrence of an item whose rebuilt key is in the current key set is kept, and every occurrence of any other item is removed |
| `ReconcileFilter.KeepStoredMembers` | src/components/FavoritesPanel.tsx:107-112 | an item is displayed afterwards if and only if it was displayed before and its rebuilt key is stored |
| `ReconcileFilter.KeepStoredUnchanged` | src/components/FavoritesPanel.tsx:107-112 | the filter leaves the list unchanged if and only if every item's rebuilt key is stored |
| `ReconcileFilter.KeepStoredIdempotent` | src/components/FavoritesPanel.tsx:107-112 | reconciling twice against the same key set gives the same list as reconciling once |
| `ReconcileFilter.ReconcileAfterLoadKeepsAll` | src/components/FavoritesPanel.tsx:104-111 | reconciling a freshly loaded list against the keys of the same favorites removes nothing when every key contains a `+` |
| `ReconcileFilter.UnseparatedKeyReconcile` | src/components/FavoritesPanel.tsx:104-111 | for a favorite whose key has no `+`, the rebuilt key differs from its key, and the item survives reconciliation exactly when it was displayed and the store holds the rebuilt key |
| `ReconcileFilter.UnseparatedKeyDropped` | src/components/FavoritesPanel.tsx:104-111 | a favorite whose key has no `+` is removed by reconciliation against a store that holds exactly its key |
| `FavoritesPanel.CardType` | src/components/FavoritesPanel.tsx:182 | the card type is `'tv'` if and only if `episodes` is present and greater than 1; otherwise it is `''` |
| `FavoritesPanel.Panel.constructor` | src/components/FavoritesPanel.tsx:38-39 | the panel starts with an empty list, the loading flag down and an empty last loaded list |
| `FavoritesPanel.Panel.Load` | src/components/FavoritesPanel.tsx:42-79 | if both reads resolve, the list becomes the sorted, joined list; if either rejects, the list is unchanged; the loading flag is down afterwards in both cases; the last loaded list is the new list after a success and unchanged after a failure |
| `FavoritesPanel.Panel.ClearAll` | src/components/FavoritesPanel.tsx:82-89 | if the clear resolves, the list becomes empty; if it rejects, the list is unchanged; the method takes only the clear's outcome and writes only `items` (`modifies this`items`), so the loading flag and the last loaded list stay as they were |
| `FavoritesPanel.Panel.Reconcile` | src/components/FavoritesPanel.tsx:100-113 | filters the list against the store's current keys only for `favoritesUpdated` while the panel is open and the read resolves, and leaves it unchanged otherwise; the result is always a subsequence of the previous list; every handler keeps the invariant that the list is a subsequence of the last loaded list |

## Left out

- Rendering (lines 121-191 apart from the card type at line 182) is not modelled. This covers the backdrop, the header badge, the loading, empty and grid branches, and the `VideoCard` component. It is markup with no state of its own.
- The store functions `getAllFavorites`, `getAllPlayRecords`, `clearAllFavorites` and `subscribeToDataUpdates` come from `@/lib/db.client`, which is not part of this model. Their results are inputs. In particular, the model does not show that clear-all empties the store itself.
- The subscribe/unsubscribe lifecycle of the two `useEffect` hooks (lines 92-119) is not modelled. Reconcile is a method that receives the event name, the `isOpen` value and the store read directly.
- Interleaving of overlapping asynchronous loads and reconciliations is not modelled. Each handler runs as one step, so a late load overwriting a newer one is not represented.
- FavoritesPanel.Panel.Load: the loading flag is raised first and lowered in `finally`, but the model only states its final value. The raised flag during the awaits is visible only under interleaving, which is not modelled.
- FavoritesPanel.Panel.Reconcile: the model receives the favorites read even when the event or the open flag means the source never makes that read. The read is ignored in those cases.
- Diagnostic logging with `console.error` (lines 75, 87) is not modelled.
- JavaScript numbers are not modelled. `save_time`, `total_episodes` and the play-record `index` are integers, so NaN, fractional values and the numeric comparator `b.save_time - a.save_time` on such values are not covered.
- Inherited object properties are not modelled. The play-record lookup `allPlayRecords[key]` is a `map` lookup, so keys such as `__proto__` or `toString` that hit prototype members of a plain object are not covered.
- String units are not modelled as JavaScript counts them. `indexOf` and `slice` work on UTF-16 code units, while a Dafny `string` is a sequence of Unicode scalar values. For a key without `+` that ends in a character outside the Basic Multilingual Plane, `key.slice(0, -1)` leaves a lone surrogate, whereas `SplitKey` removes the whole character.
- A transform that throws inside the `try` of `loadFavorites` is not modelled. A favorite stored as `null` would make `fav.title` (line 63) or the comparator (line 50) throw, and the load would end with the list unchanged. In the model, favorite values are always records, so `Load` fails only when a store read rejects.
- The enumeration order of `Object.entries` and `Object.keys` is taken as given by the input sequence. The engine's ordering rules, with integer-like keys first, are not modelled.
