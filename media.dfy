/** Values shared by the stores: the optional value, the two media kinds and
    the rows of the three backend tables (liked_items, my_list, watch_progress). */
module Media {

  /** A value that may be missing (`null` / `undefined` in the source). */
  datatype Option<+T> = None | Some(value: T)

  /** The `'movie' | 'tv'` media type of every row. */
  datatype MediaType = Movie | Tv

  /** A row of the liked_items or my_list table. Times are milliseconds since
      the epoch; the ISO-8601 strings of the source sort the same way. */
  datatype MembershipRow = MembershipRow(
    id: string,
    userId: string,
    mediaId: int,
    mediaType: MediaType,
    createdAt: nat)

  /** The liked-items view of a row: the four columns the likes select reads,
      and also the shape of the optimistic entries kept in local storage. */
  datatype LikedItem = LikedItem(id: string, mediaId: int, mediaType: MediaType, createdAt: nat)

  /** A row of the watch_progress table; `progress` is a percentage. */
  datatype WatchProgress = WatchProgress(
    id: string,
    userId: string,
    mediaId: int,
    mediaType: MediaType,
    progress: int,
    lastWatched: nat)
}
