/** The records the favorites panel reads from the two client stores and the
    item it derives for display. */
module FavoriteTypes {

  datatype Option<+T> = None | Some(value: T)

  /** How an awaited store call settles: the promise resolves with a value or
      rejects (the store call threw). */
  datatype Outcome<+T> = Resolved(value: T) | Rejected

  /** A favorites-store value. Optional fields are `None` where the stored
      object has no such property. */
  datatype FavoriteRecord = FavoriteRecord(
    title: string,
    year: string,
    cover: string,
    totalEpisodes: Option<int>,
    sourceName: Option<string>,
    searchTitle: Option<string>,
    origin: Option<string>,
    saveTime: int)

  /** A play-record-store value; only the episode index is read here. */
  datatype PlayRecord = PlayRecord(index: int)

  /** One `[key, value]` pair of `Object.entries` over the favorites mapping. */
  datatype Entry = Entry(key: string, fav: FavoriteRecord)

  /** The displayed item derived from one favorite. */
  datatype FavoriteItem = FavoriteItem(
    id: string,
    source: string,
    title: string,
    year: string,
    poster: string,
    episodes: Option<int>,
    sourceName: Option<string>,
    currentEpisode: Option<int>,
    searchTitle: Option<string>,
    origin: Option<string>)
}
