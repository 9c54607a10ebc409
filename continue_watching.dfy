/** The watch-progress store: percentages kept in the watch_progress table,
    one row per (user, media id, media type), and a local list of the twenty
    most recently watched rows. */
module ContinueWatching {
  import opened Media
  import opened Seqs
  import opened Remote

  /** `Math.min(100, Math.max(0, progress))`. */
  function Clamp(progress: int): (r: int)
    ensures 0 <= r <= 100
    ensures 0 <= progress <= 100 ==> r == progress
    ensures progress < 0 ==> r == 0
    ensures progress > 100 ==> r == 100
  {
    var atLeastZero := if progress > 0 then progress else 0;
    if atLeastZero < 100 then atLeastZero else 100
  }

  /** Every stored percentage lies in [0, 100]. */
  ghost predicate AllInRange(rows: seq<WatchProgress>) {
    forall i :: 0 <= i < |rows| ==> 0 <= rows[i].progress <= 100
  }

  predicate Matches(w: WatchProgress, mediaId: int, mediaType: MediaType) {
    w.mediaId == mediaId && w.mediaType == mediaType
  }

  /** `watchList.find(w => w.media_id === mediaId && w.media_type === mediaType)?.progress || 0`:
      the progress of the first entry for the pair, and 0 when there is none. */
  function GetProgress(list: seq<WatchProgress>, mediaId: int, mediaType: MediaType := Movie): (r: int)
    ensures (forall i :: 0 <= i < |list| ==> !Matches(list[i], mediaId, mediaType)) ==> r == 0
    ensures forall i :: 0 <= i < |list| && Matches(list[i], mediaId, mediaType)
                        && (forall j :: 0 <= j < i ==> !Matches(list[j], mediaId, mediaType))
                        ==> r == list[i].progress
  {
    if list == [] then 0
    else if Matches(list[0], mediaId, mediaType) then list[0].progress
    else
      var r := GetProgress(list[1..], mediaId, mediaType);
      assert forall i :: 1 <= i < |list| ==> list[i] == list[1..][i - 1];
      r
  }

  /** When every entry is in range, so is every progress read. */
  lemma GetProgressInRange(list: seq<WatchProgress>, mediaId: int, mediaType: MediaType)
    requires AllInRange(list)
    ensures 0 <= GetProgress(list, mediaId, mediaType) <= 100
  {
    if list != [] && !Matches(list[0], mediaId, mediaType) {
      GetProgressInRange(list[1..], mediaId, mediaType);
    }
  }

  /** An upsert of an in-range row keeps every row of the table in range. */
  lemma UpsertKeepsRange(rows: seq<WatchProgress>, row: WatchProgress)
    requires AllInRange(rows) && 0 <= row.progress <= 100
    ensures AllInRange(Upsert(rows, row))
  {
    var r := Upsert(rows, row);
    forall i | 0 <= i < |r|
      ensures 0 <= r[i].progress <= 100
    {
      assert r[i] in multiset(r);
      if r[i] != Upserted(rows, row) {
        assert r[i] in multiset(OtherKeys(rows, row));
        assert r[i] in OtherKeys(rows, row);
      }
    }
  }

  /** Deleting rows keeps every remaining row in range. */
  lemma DeleteKeepsRange(rows: seq<WatchProgress>, userId: string, mediaId: int, mediaType: MediaType)
    requires AllInRange(rows)
    ensures AllInRange(DeleteProgress(rows, userId, mediaId, mediaType))
  {
    var r := DeleteProgress(rows, userId, mediaId, mediaType);
    forall i | 0 <= i < |r|
      ensures 0 <= r[i].progress <= 100
    {
      assert r[i] in rows;
    }
  }

  /** No row was watched after `now`: the clock has not gone back. */
  ghost predicate NoneLaterThan(rows: seq<WatchProgress>, now: nat) {
    forall i :: 0 <= i < |rows| ==> rows[i].lastWatched <= now
  }

  /** With a clock that has not gone back, the row just upserted is the user's
      most recent one, so the list reloaded for that user reports exactly the
      progress written. */
  lemma UpdateThenGetProgress(rows: seq<WatchProgress>, row: WatchProgress)
    requires NoneLaterThan(rows, row.lastWatched)
    ensures GetProgress(WatchView(Upsert(rows, row), row.userId), row.mediaId, row.mediaType) == row.progress
  {
    var others := OtherKeys(rows, row);
    var stored := Upserted(rows, row);
    forall i | 0 <= i < |others|
      ensures LastWatched(others[i]) <= LastWatched(stored)
    {
      assert others[i] in rows;
    }
    assert Upsert(rows, row) == [stored] + others;
    FilterAppend((x: WatchProgress) => x.userId == row.userId, [stored], others);
    assert OwnProgress(Upsert(rows, row), row.userId) == [stored] + OwnProgress(others, row.userId);
    assert WatchView(Upsert(rows, row), row.userId)[0] == stored;
  }

  /** After an accepted delete, the list reloaded for that user reports no
      progress for the pair. */
  lemma DeleteThenNoProgress(rows: seq<WatchProgress>, userId: string, mediaId: int, mediaType: MediaType)
    ensures GetProgress(WatchView(DeleteProgress(rows, userId, mediaId, mediaType), userId), mediaId, mediaType) == 0
  {
    var remaining := DeleteProgress(rows, userId, mediaId, mediaType);
    var own := OwnProgress(remaining, userId);
    var view := WatchView(remaining, userId);
    forall i | 0 <= i < |view|
      ensures !Matches(view[i], mediaId, mediaType)
    {
      assert view[i] == own[i];
      var k :| 0 <= k < |remaining| && remaining[k] == own[i];
    }
  }

  /** The state of `useContinueWatching`: the newest rows, the loading flag,
      the user and the run-once flag of the mount effect, next to the backend. */
  class ContinueWatchingHook {
    const backend: Backend
    var watchList: seq<WatchProgress>
    var loading: bool
    var user: Option<string>
    var initialized: bool

    ghost predicate Valid()
      reads this, backend
    {
      backend.Valid() && AllInRange(backend.watchProgress) && AllInRange(watchList)
    }

    constructor (backend: Backend)
      requires backend.Valid() && AllInRange(backend.watchProgress)
      ensures Valid() && this.backend == backend
      ensures watchList == [] && !loading && user == None && !initialized
    {
      this.backend := backend;
      watchList := [];
      loading := false;
      user := None;
      initialized := false;
    }

    /** Reloads the signed-in user's twenty newest rows; without any user it
        does nothing, and after an error the list is kept. Loading ends on
        every path that starts it. Every caller passes the signed-in user. */
    method FetchWatchProgress(userId: Option<string>, ok: bool)
      requires Valid()
      modifies this`watchList, this`loading
      ensures Valid()
      ensures userId.None? && user.None? ==> watchList == old(watchList) && loading == old(loading)
      ensures userId.Some? || user.Some? ==>
        && !loading
        && watchList == (if ok then WatchView(backend.watchProgress, if userId.Some? then userId.value else user.value)
                         else old(watchList))
    {
      if userId.None? && user.None? {
        return;
      }
      loading := true;
      var viewer := if userId.Some? then userId.value else user.value;
      var data, error := backend.SelectWatchProgress(ok, viewer);
      if error {
        loading := false;
        return;
      }
      forall i | 0 <= i < |data|
        ensures 0 <= data[i].progress <= 100
      {
        var own := OwnProgress(backend.watchProgress, viewer);
        assert data[i] == own[i];
        var k :| 0 <= k < |backend.watchProgress| && backend.watchProgress[k] == own[i];
      }
      watchList := data;
      loading := false;
    }

    /** The mount effect, guarded so that it runs once: look the user up and,
        when there is one and no error, record it and load the list. */
    method Effect(authUser: Option<string>, authError: bool, fetchOk: bool)
      requires Valid()
      modifies this
      ensures Valid()
      ensures initialized
      ensures old(initialized) || authError || authUser.None? ==>
        watchList == old(watchList) && loading == old(loading) && user == old(user)
      ensures !old(initialized) && !authError && authUser.Some? ==>
        && user == authUser && !loading
        && watchList == (if fetchOk then WatchView(backend.watchProgress, authUser.value) else old(watchList))
    {
      if initialized {
        return;
      }
      initialized := true;
      if authError || authUser.None? {
        return;
      }
      user := authUser;
      FetchWatchProgress(authUser, fetchOk);
    }

    /** Records a percentage, clamped to [0, 100], under the conflict key
        (user, media id, media type), then reloads. `now` is the time written
        to last_watched and `newId` the id a new row receives. */
    method UpdateProgress(mediaId: int, mediaType: MediaType, progress: int,
                          nameonly now: nat, nameonly newId: string,
                          nameonly upsertOk: bool, nameonly refetchOk: bool)
      requires Valid()
      modifies this, backend
      ensures Valid()
      ensures user == old(user) && initialized == old(initialized)
      ensures backend.likedItems == old(backend.likedItems) && backend.myList == old(backend.myList)
      ensures user.None? ==>
        watchList == old(watchList) && loading == old(loading) && backend.watchProgress == old(backend.watchProgress)
      ensures user.Some? ==>
        && backend.watchProgress == (if upsertOk then Upsert(old(backend.watchProgress),
                                         WatchProgress(newId, user.value, mediaId, mediaType, Clamp(progress), now))
                                     else old(backend.watchProgress))
        && watchList == (if upsertOk && refetchOk then WatchView(backend.watchProgress, user.value) else old(watchList))
        && loading == (if upsertOk then false else old(loading))
      ensures user.Some? && upsertOk && refetchOk
              && old(NoneLaterThan(backend.watchProgress, now)) ==>
        GetProgress(watchList, mediaId, mediaType) == Clamp(progress)
    {
      if user.None? {
        return;
      }
      var row := WatchProgress(newId, user.value, mediaId, mediaType, Clamp(progress), now);
      UpsertKeepsRange(backend.watchProgress, row);
      if NoneLaterThan(backend.watchProgress, now) {
        UpdateThenGetProgress(backend.watchProgress, row);
      }
      var error := backend.UpsertWatchProgress(upsertOk, row);
      if error {
        return;
      }
      FetchWatchProgress(user, refetchOk);
    }

    /** Deletes the user's row for the pair, then reloads; a no-op without a user. */
    method RemoveFromWatching(mediaId: int, mediaType: MediaType,
                              nameonly deleteOk: bool, nameonly refetchOk: bool)
      requires Valid()
      modifies this, backend
      ensures Valid()
      ensures user == old(user) && initialized == old(initialized)
      ensures backend.likedItems == old(backend.likedItems) && backend.myList == old(backend.myList)
      ensures user.None? ==>
        watchList == old(watchList) && loading == old(loading) && backend.watchProgress == old(backend.watchProgress)
      ensures user.Some? ==>
        && backend.watchProgress == (if deleteOk then DeleteProgress(old(backend.watchProgress), user.value, mediaId, mediaType)
                                     else old(backend.watchProgress))
        && watchList == (if deleteOk && refetchOk then WatchView(backend.watchProgress, user.value) else old(watchList))
        && loading == (if deleteOk then false else old(loading))
      ensures user.Some? && deleteOk && refetchOk ==> GetProgress(watchList, mediaId, mediaType) == 0
    {
      if user.None? {
        return;
      }
      DeleteKeepsRange(backend.watchProgress, user.value, mediaId, mediaType);
      DeleteThenNoProgress(backend.watchProgress, user.value, mediaId, mediaType);
      var error := backend.DeleteWatchProgress(deleteOk, user.value, mediaId, mediaType);
      if error {
        return;
      }
      FetchWatchProgress(user, refetchOk);
    }
  }
}
