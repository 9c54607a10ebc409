/** The hosted backend the hooks talk to, reduced to the three tables they use.
    Each table is kept in the order its select returns it (newest first), so a
    select is a projection of the stored sequence. Every call takes the outcome
    of the network round trip as `ok`: a failed call changes nothing and reports
    an error, as the `{ error }` field of the client's responses does. */
module Remote {
  import opened Media
  import opened Seqs

  function CreatedAt(r: MembershipRow): nat { r.createdAt }
  function LikedCreatedAt(r: LikedItem): nat { r.createdAt }
  function LastWatched(p: WatchProgress): nat { p.lastWatched }

  /** The rows that a delete filtered by user, media id and media type leaves. */
  function DeleteMembership(rows: seq<MembershipRow>, userId: string, mediaId: int, mediaType: MediaType): seq<MembershipRow> {
    Filter((x: MembershipRow) => !(x.userId == userId && x.mediaId == mediaId && x.mediaType == mediaType), rows)
  }

  /** The rows that a delete on watch_progress filtered by media id, media type and user leaves. */
  function DeleteProgress(rows: seq<WatchProgress>, userId: string, mediaId: int, mediaType: MediaType): seq<WatchProgress> {
    Filter((x: WatchProgress) => !(x.userId == userId && x.mediaId == mediaId && x.mediaType == mediaType), rows)
  }

  function ToLiked(r: MembershipRow): LikedItem {
    LikedItem(r.id, r.mediaId, r.mediaType, r.createdAt)
  }

  /** The rows of one user, in table order. */
  function OwnRows(rows: seq<MembershipRow>, userId: string): (r: seq<MembershipRow>)
    ensures forall i :: 0 <= i < |r| ==> r[i] in rows && r[i].userId == userId
    ensures forall i :: 0 <= i < |rows| && rows[i].userId == userId ==> rows[i] in r
  {
    Filter((x: MembershipRow) => x.userId == userId, rows)
  }

  /** The watch-progress rows of one user, in table order. */
  function OwnProgress(rows: seq<WatchProgress>, userId: string): (r: seq<WatchProgress>)
    ensures forall i :: 0 <= i < |r| ==> r[i] in rows && r[i].userId == userId
    ensures forall i :: 0 <= i < |rows| && rows[i].userId == userId ==> rows[i] in r
  {
    Filter((x: WatchProgress) => x.userId == userId, rows)
  }

  /** `select('id, media_id, media_type, created_at').eq('user_id', u).order('created_at', desc)`. */
  function LikedView(rows: seq<MembershipRow>, userId: string): (r: seq<LikedItem>)
    ensures |r| <= |rows|
  {
    var own := OwnRows(rows, userId);
    seq(|own|, i requires 0 <= i < |own| => ToLiked(own[i]))
  }

  /** The likes select is newest first. */
  lemma LikedViewNewestFirst(rows: seq<MembershipRow>, userId: string)
    requires NewestFirst(rows, CreatedAt)
    ensures NewestFirst(LikedView(rows, userId), LikedCreatedAt)
  {
    var own := OwnRows(rows, userId);
    FilterPairwise((x: MembershipRow) => x.userId == userId, rows, (a: MembershipRow, b: MembershipRow) => CreatedAt(a) >= CreatedAt(b));
    var v := LikedView(rows, userId);
    forall i, j | 0 <= i < j < |v|
      ensures LikedCreatedAt(v[i]) >= LikedCreatedAt(v[j])
    {
      assert CreatedAt(own[i]) >= CreatedAt(own[j]);
    }
  }

  /** Every row of the user appears in the likes select. */
  lemma LikedViewHasUsersRows(rows: seq<MembershipRow>, userId: string, i: int)
    requires 0 <= i < |rows| && rows[i].userId == userId
    ensures ToLiked(rows[i]) in LikedView(rows, userId)
  {
    var own := OwnRows(rows, userId);
    var k :| 0 <= k < |own| && own[k] == rows[i];
    assert LikedView(rows, userId)[k] == ToLiked(rows[i]);
  }

  /** Every entry of the likes select comes from a row of that user. */
  lemma LikedViewOnlyUsersRows(rows: seq<MembershipRow>, userId: string, k: int)
    requires 0 <= k < |LikedView(rows, userId)|
    ensures exists i :: 0 <= i < |rows| && rows[i].userId == userId && ToLiked(rows[i]) == LikedView(rows, userId)[k]
  {
    var own := OwnRows(rows, userId);
    assert own[k] in rows;
    var i :| 0 <= i < |rows| && rows[i] == own[k];
    assert ToLiked(rows[i]) == LikedView(rows, userId)[k];
  }

  /** The `.limit(20)` of the watch-progress select. */
  const WatchListLimit := 20

  /** `select('*').order('last_watched', desc).limit(20)` over a newest-first table. */
  function NewestWatched(rows: seq<WatchProgress>): seq<WatchProgress> {
    rows[..if |rows| < WatchListLimit then |rows| else WatchListLimit]
  }

  /** The watch-progress select as the signed-in user sees it: the backend's
      row rule keeps that user's rows, and the query keeps the twenty newest. */
  function WatchView(rows: seq<WatchProgress>, userId: string): seq<WatchProgress> {
    NewestWatched(OwnProgress(rows, userId))
  }

  /** The select returns the twenty most recently watched rows: no more than
      twenty, twenty whenever the table has that many, newest first, and none
      of the rows left out was watched later than one returned. */
  lemma NewestWatchedIsTop(rows: seq<WatchProgress>)
    requires NewestFirst(rows, LastWatched)
    ensures |NewestWatched(rows)| == if |rows| < WatchListLimit then |rows| else WatchListLimit
    ensures NewestWatched(rows) == rows[..|NewestWatched(rows)|]
    ensures NewestFirst(NewestWatched(rows), LastWatched)
    ensures forall i, j :: 0 <= i < |NewestWatched(rows)| <= j < |rows| ==>
      NewestWatched(rows)[i].lastWatched >= rows[j].lastWatched
  {
    var r := NewestWatched(rows);
    forall i, j | 0 <= i < j < |r|
      ensures LastWatched(r[i]) >= LastWatched(r[j])
    {
      assert r[i] == rows[i] && r[j] == rows[j];
    }
    forall i, j | 0 <= i < |r| <= j < |rows|
      ensures r[i].lastWatched >= rows[j].lastWatched
    {
      assert r[i] == rows[i];
      assert LastWatched(rows[i]) >= LastWatched(rows[j]);
    }
  }

  /** The upsert conflict target `user_id,media_id,media_type`. */
  predicate SameKey(a: WatchProgress, b: WatchProgress) {
    a.userId == b.userId && a.mediaId == b.mediaId && a.mediaType == b.mediaType
  }

  /** The table's unique constraint on the conflict target. */
  ghost predicate UniqueKeys(rows: seq<WatchProgress>) {
    Pairwise(rows, (a: WatchProgress, b: WatchProgress) => !SameKey(a, b))
  }

  /** The first row with the same conflict key as `row`, if any. */
  function FindKey(rows: seq<WatchProgress>, row: WatchProgress): (r: Option<WatchProgress>)
    ensures r.Some? ==> r.value in rows && SameKey(r.value, row)
    ensures r.None? ==> forall i :: 0 <= i < |rows| ==> !SameKey(rows[i], row)
  {
    if rows == [] then None
    else if SameKey(rows[0], row) then Some(rows[0])
    else FindKey(rows[1..], row)
  }

  function OtherKeys(rows: seq<WatchProgress>, row: WatchProgress): seq<WatchProgress> {
    Filter((x: WatchProgress) => !SameKey(x, row), rows)
  }

  /** The row an upsert stores: the existing row keeps its id and takes the new
      columns; without a conflict the new row is inserted as it is. */
  function Upserted(rows: seq<WatchProgress>, row: WatchProgress): WatchProgress {
    match FindKey(rows, row)
    case Some(existing) => row.(id := existing.id)
    case None => row
  }

  /** `upsert(row, { onConflict: 'user_id,media_id,media_type' })`. */
  function Upsert(rows: seq<WatchProgress>, row: WatchProgress): seq<WatchProgress> {
    InsertNewestFirst(OtherKeys(rows, row), Upserted(rows, row), LastWatched)
  }

  /** An upsert stores the new columns under the key, in exactly one row. */
  lemma UpsertStoresRow(rows: seq<WatchProgress>, row: WatchProgress)
    ensures Upserted(rows, row) in Upsert(rows, row)
    ensures Upserted(rows, row) == row.(id := Upserted(rows, row).id)
    ensures |Upsert(rows, row)| == |OtherKeys(rows, row)| + 1
  {
    assert Upserted(rows, row) in multiset(Upsert(rows, row));
  }

  /** An upsert leaves the rows under every other key as they were, in their order. */
  lemma UpsertKeepsOtherRows(rows: seq<WatchProgress>, row: WatchProgress)
    ensures OtherKeys(Upsert(rows, row), row) == OtherKeys(rows, row)
  {
    var keep := (x: WatchProgress) => !SameKey(x, row);
    FilterInsertRejected(keep, OtherKeys(rows, row), Upserted(rows, row), LastWatched);
    FilterIdempotent(keep, rows);
  }

  /** An upsert keeps the table newest first. */
  lemma UpsertKeepsOrder(rows: seq<WatchProgress>, row: WatchProgress)
    requires NewestFirst(rows, LastWatched)
    ensures NewestFirst(Upsert(rows, row), LastWatched)
  {
    FilterPairwise((x: WatchProgress) => !SameKey(x, row), rows, (a: WatchProgress, b: WatchProgress) => LastWatched(a) >= LastWatched(b));
    InsertKeepsNewestFirst(OtherKeys(rows, row), Upserted(rows, row), LastWatched);
  }

  /** An upsert keeps at most one row per (user, media id, media type) key. */
  lemma UpsertKeepsKeysUnique(rows: seq<WatchProgress>, row: WatchProgress)
    requires UniqueKeys(rows)
    ensures UniqueKeys(Upsert(rows, row))
  {
    var others := OtherKeys(rows, row);
    FilterPairwise((x: WatchProgress) => !SameKey(x, row), rows, (a: WatchProgress, b: WatchProgress) => !SameKey(a, b));
    InsertPairwise(others, Upserted(rows, row), LastWatched, (a: WatchProgress, b: WatchProgress) => !SameKey(a, b));
  }

  /** Deleting rows keeps a table newest first. */
  lemma DeleteKeepsOrder<T>(keep: T -> bool, rows: seq<T>, time: T -> nat)
    requires NewestFirst(rows, time)
    ensures NewestFirst(Filter(keep, rows), time)
  {
    FilterPairwise(keep, rows, (a: T, b: T) => time(a) >= time(b));
  }

  class Backend {
    var likedItems: seq<MembershipRow>
    var myList: seq<MembershipRow>
    var watchProgress: seq<WatchProgress>

    ghost predicate Valid()
      reads this
    {
      && NewestFirst(likedItems, CreatedAt)
      && NewestFirst(myList, CreatedAt)
      && NewestFirst(watchProgress, LastWatched)
      && UniqueKeys(watchProgress)
    }

    constructor ()
      ensures Valid()
      ensures likedItems == [] && myList == [] && watchProgress == []
    {
      likedItems, myList, watchProgress := [], [], [];
    }

    /** The likes select of one user; `data` is empty when the call fails. */
    method SelectLiked(ok: bool, userId: string) returns (data: seq<LikedItem>, error: bool)
      requires Valid()
      ensures error == !ok
      ensures ok ==> data == LikedView(likedItems, userId) && NewestFirst(data, LikedCreatedAt)
      ensures !ok ==> data == []
    {
      error := !ok;
      data := [];
      if ok {
        LikedViewNewestFirst(likedItems, userId);
        data := LikedView(likedItems, userId);
      }
    }

    method InsertLiked(ok: bool, row: MembershipRow) returns (error: bool)
      requires Valid()
      modifies this
      ensures Valid() && error == !ok
      ensures likedItems == if ok then InsertNewestFirst(old(likedItems), row, CreatedAt) else old(likedItems)
      ensures myList == old(myList) && watchProgress == old(watchProgress)
    {
      error := !ok;
      if ok {
        InsertKeepsNewestFirst(likedItems, row, CreatedAt);
        likedItems := InsertNewestFirst(likedItems, row, CreatedAt);
      }
    }

    method DeleteLiked(ok: bool, userId: string, mediaId: int, mediaType: MediaType) returns (error: bool)
      requires Valid()
      modifies this
      ensures Valid() && error == !ok
      ensures likedItems == if ok then DeleteMembership(old(likedItems), userId, mediaId, mediaType) else old(likedItems)
      ensures myList == old(myList) && watchProgress == old(watchProgress)
    {
      error := !ok;
      if ok {
        DeleteKeepsOrder((x: MembershipRow) => !(x.userId == userId && x.mediaId == mediaId && x.mediaType == mediaType), likedItems, CreatedAt);
        likedItems := DeleteMembership(likedItems, userId, mediaId, mediaType);
      }
    }

    /** `select('*').order('created_at', desc)` on my_list, run for the signed-in
        user `viewer`: the query has no user filter, and the backend's row rule
        returns that user's rows only. `data` is empty when the call fails. */
    method SelectMyList(ok: bool, viewer: string) returns (data: seq<MembershipRow>, error: bool)
      requires Valid()
      ensures error == !ok
      ensures data == if ok then OwnRows(myList, viewer) else []
      ensures NewestFirst(data, CreatedAt)
    {
      error := !ok;
      DeleteKeepsOrder((x: MembershipRow) => x.userId == viewer, myList, CreatedAt);
      data := if ok then OwnRows(myList, viewer) else [];
    }

    method InsertMyList(ok: bool, row: MembershipRow) returns (error: bool)
      requires Valid()
      modifies this
      ensures Valid() && error == !ok
      ensures myList == if ok then InsertNewestFirst(old(myList), row, CreatedAt) else old(myList)
      ensures likedItems == old(likedItems) && watchProgress == old(watchProgress)
    {
      error := !ok;
      if ok {
        InsertKeepsNewestFirst(myList, row, CreatedAt);
        myList := InsertNewestFirst(myList, row, CreatedAt);
      }
    }

    method DeleteMyList(ok: bool, userId: string, mediaId: int, mediaType: MediaType) returns (error: bool)
      requires Valid()
      modifies this
      ensures Valid() && error == !ok
      ensures myList == if ok then DeleteMembership(old(myList), userId, mediaId, mediaType) else old(myList)
      ensures likedItems == old(likedItems) && watchProgress == old(watchProgress)
    {
      error := !ok;
      if ok {
        DeleteKeepsOrder((x: MembershipRow) => !(x.userId == userId && x.mediaId == mediaId && x.mediaType == mediaType), myList, CreatedAt);
        myList := DeleteMembership(myList, userId, mediaId, mediaType);
      }
    }

    /** The watch-progress select, run for the signed-in user `viewer`: the
        query has no user filter, the backend's row rule returns that user's
        rows only, and of those the twenty most recently watched. */
    method SelectWatchProgress(ok: bool, viewer: string) returns (data: seq<WatchProgress>, error: bool)
      requires Valid()
      ensures error == !ok
      ensures data == if ok then WatchView(watchProgress, viewer) else []
      ensures |data| <= WatchListLimit && NewestFirst(data, LastWatched)
    {
      error := !ok;
      DeleteKeepsOrder((x: WatchProgress) => x.userId == viewer, watchProgress, LastWatched);
      NewestWatchedIsTop(OwnProgress(watchProgress, viewer));
      data := if ok then WatchView(watchProgress, viewer) else [];
    }

    method UpsertWatchProgress(ok: bool, row: WatchProgress) returns (error: bool)
      requires Valid()
      modifies this
      ensures Valid() && error == !ok
      ensures watchProgress == if ok then Upsert(old(watchProgress), row) else old(watchProgress)
      ensures likedItems == old(likedItems) && myList == old(myList)
    {
      error := !ok;
      if ok {
        UpsertKeepsOrder(watchProgress, row);
        UpsertKeepsKeysUnique(watchProgress, row);
        watchProgress := Upsert(watchProgress, row);
      }
    }

    method DeleteWatchProgress(ok: bool, userId: string, mediaId: int, mediaType: MediaType) returns (error: bool)
      requires Valid()
      modifies this
      ensures Valid() && error == !ok
      ensures watchProgress == if ok then DeleteProgress(old(watchProgress), userId, mediaId, mediaType) else old(watchProgress)
      ensures likedItems == old(likedItems) && myList == old(myList)
    {
      error := !ok;
      if ok {
        var keep := (x: WatchProgress) => !(x.userId == userId && x.mediaId == mediaId && x.mediaType == mediaType);
        DeleteKeepsOrder(keep, watchProgress, LastWatched);
        FilterPairwise(keep, watchProgress, (a: WatchProgress, b: WatchProgress) => !SameKey(a, b));
        watchProgress := DeleteProgress(watchProgress, userId, mediaId, mediaType);
      }
    }
  }
}
