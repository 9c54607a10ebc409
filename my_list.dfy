/** The my-list store: unlike the likes, the list is never changed locally; it
    is only replaced by a reload after the backend confirms an insert or delete. */
module MyList {
  import opened Media
  import opened Seqs
  import opened Remote

  /** Where an anonymous add sends the user. */
  const LoginRoute := "/login"

  predicate Matches(item: MembershipRow, mediaId: int, mediaType: MediaType) {
    item.mediaId == mediaId && item.mediaType == mediaType
  }

  /** `myList.some(item => item.media_id === mediaId && item.media_type === mediaType)`. */
  function IsInList(list: seq<MembershipRow>, mediaId: int, mediaType: MediaType := Movie): (r: bool)
    ensures r <==> exists i :: 0 <= i < |list| && Matches(list[i], mediaId, mediaType)
  {
    Any((x: MembershipRow) => Matches(x, mediaId, mediaType), list)
  }

  /** After an accepted delete, the user's rows no longer hold the pair. */
  lemma DeleteThenNotInList(rows: seq<MembershipRow>, userId: string, mediaId: int, mediaType: MediaType)
    ensures !IsInList(OwnRows(DeleteMembership(rows, userId, mediaId, mediaType), userId), mediaId, mediaType)
  {
    var remaining := DeleteMembership(rows, userId, mediaId, mediaType);
    var own := OwnRows(remaining, userId);
    forall i | 0 <= i < |own|
      ensures !Matches(own[i], mediaId, mediaType)
    {
      var k :| 0 <= k < |remaining| && remaining[k] == own[i];
    }
  }

  /** After an accepted insert, the user's rows hold the pair. */
  lemma InsertThenInList(rows: seq<MembershipRow>, row: MembershipRow)
    ensures IsInList(OwnRows(InsertNewestFirst(rows, row, CreatedAt), row.userId), row.mediaId, row.mediaType)
  {
    var inserted := InsertNewestFirst(rows, row, CreatedAt);
    assert row in multiset(inserted);
    var k :| 0 <= k < |inserted| && inserted[k] == row;
    var own := OwnRows(inserted, row.userId);
    var j :| 0 <= j < |own| && own[j] == row;
  }

  /** The state of `useMyList`: the list, the loading flag, the signed-in user
      and the routes pushed on the router, next to the backend. */
  class MyListHook {
    const backend: Backend
    var myList: seq<MembershipRow>
    var loading: bool
    var user: Option<string>
    var navigation: seq<string>

    ghost predicate Valid()
      reads this, backend
    {
      backend.Valid()
    }

    constructor (backend: Backend)
      requires backend.Valid()
      ensures Valid() && this.backend == backend
      ensures myList == [] && loading && user == None && navigation == []
    {
      this.backend := backend;
      myList := [];
      loading := true;
      user := None;
      navigation := [];
    }

    /** Reloads the list as the signed-in user `viewer` sees it; an error leaves
        it as it was, and loading ends either way. */
    method FetchMyList(viewer: string, ok: bool)
      requires Valid()
      modifies this`myList, this`loading
      ensures Valid()
      ensures !loading
      ensures myList == if ok then OwnRows(backend.myList, viewer) else old(myList)
      ensures ok ==> NewestFirst(myList, CreatedAt)
    {
      loading := true;
      var data, error := backend.SelectMyList(ok, viewer);
      if !error {
        myList := data;
      }
      loading := false;
    }

    /** The mount effect: record the user and load the list, or stop loading. */
    method CheckUser(authUser: Option<string>, fetchOk: bool)
      requires Valid()
      modifies this
      ensures Valid()
      ensures user == authUser && !loading && navigation == old(navigation)
      ensures myList == if authUser.Some? && fetchOk then OwnRows(backend.myList, authUser.value) else old(myList)
    {
      user := authUser;
      if authUser.Some? {
        FetchMyList(authUser.value, fetchOk);
      } else {
        loading := false;
      }
    }

    /** Adds a title: anonymous users are sent to the login page; otherwise the
        row is inserted and, once accepted, the list is reloaded. The result is
        `None` for the anonymous case (`undefined`), else whether the insert was accepted. */
    method AddToList(mediaId: int, mediaType: MediaType := Movie,
                     nameonly insertedId: string, nameonly insertedAt: nat,
                     nameonly insertOk: bool, nameonly refetchOk: bool)
      returns (result: Option<bool>)
      requires Valid()
      modifies this, backend
      ensures Valid()
      ensures user == old(user)
      ensures backend.likedItems == old(backend.likedItems) && backend.watchProgress == old(backend.watchProgress)
      ensures user.None? ==>
        && result == None && navigation == old(navigation) + [LoginRoute]
        && myList == old(myList) && loading == old(loading) && backend.myList == old(backend.myList)
      ensures user.Some? ==>
        && result == Some(insertOk) && navigation == old(navigation)
        && backend.myList == (if insertOk then InsertNewestFirst(old(backend.myList),
                                  MembershipRow(insertedId, user.value, mediaId, mediaType, insertedAt), CreatedAt)
                              else old(backend.myList))
        && myList == (if insertOk && refetchOk then OwnRows(backend.myList, user.value) else old(myList))
        && loading == (if insertOk then false else old(loading))
      ensures user.Some? && insertOk && refetchOk ==> IsInList(myList, mediaId, mediaType)
    {
      if user.None? {
        navigation := navigation + [LoginRoute];
        return None;
      }
      var row := MembershipRow(insertedId, user.value, mediaId, mediaType, insertedAt);
      InsertThenInList(backend.myList, row);
      var error := backend.InsertMyList(insertOk, row);
      if error {
        return Some(false);
      }
      FetchMyList(user.value, refetchOk);
      return Some(true);
    }

    /** Removes a title: a no-op for anonymous users; otherwise the user's rows
        for the pair are deleted and, once accepted, the list is reloaded. */
    method RemoveFromList(mediaId: int, mediaType: MediaType := Movie,
                          nameonly deleteOk: bool, nameonly refetchOk: bool)
      returns (result: Option<bool>)
      requires Valid()
      modifies this, backend
      ensures Valid()
      ensures user == old(user) && navigation == old(navigation)
      ensures backend.likedItems == old(backend.likedItems) && backend.watchProgress == old(backend.watchProgress)
      ensures user.None? ==>
        result == None && myList == old(myList) && loading == old(loading) && backend.myList == old(backend.myList)
      ensures user.Some? ==>
        && result == Some(deleteOk)
        && backend.myList == (if deleteOk then DeleteMembership(old(backend.myList), user.value, mediaId, mediaType)
                              else old(backend.myList))
        && myList == (if deleteOk && refetchOk then OwnRows(backend.myList, user.value) else old(myList))
        && loading == (if deleteOk then false else old(loading))
      ensures user.Some? && deleteOk && refetchOk ==> !IsInList(myList, mediaId, mediaType)
    {
      if user.None? {
        return None;
      }
      DeleteThenNotInList(backend.myList, user.value, mediaId, mediaType);
      var error := backend.DeleteMyList(deleteOk, user.value, mediaId, mediaType);
      if error {
        return Some(false);
      }
      FetchMyList(user.value, refetchOk);
      return Some(true);
    }

    /** Removes the title when it is in the list and adds it otherwise. */
    method ToggleList(mediaId: int, mediaType: MediaType := Movie,
                      nameonly insertedId: string, nameonly insertedAt: nat,
                      nameonly remoteOk: bool, nameonly refetchOk: bool)
      returns (result: Option<bool>)
      requires Valid()
      modifies this, backend
      ensures Valid()
      ensures user == old(user)
      ensures backend.likedItems == old(backend.likedItems) && backend.watchProgress == old(backend.watchProgress)
      ensures loading == if user.Some? && remoteOk then false else old(loading)
      ensures result == if user.None? then None else Some(remoteOk)
      ensures myList == if user.Some? && remoteOk && refetchOk then OwnRows(backend.myList, user.value) else old(myList)
      ensures user.Some? && remoteOk && refetchOk ==>
        IsInList(myList, mediaId, mediaType) == !old(IsInList(myList, mediaId, mediaType))
      ensures old(IsInList(myList, mediaId, mediaType)) ==>
        && navigation == old(navigation)
        && backend.myList == (if user.Some? && remoteOk then DeleteMembership(old(backend.myList), user.value, mediaId, mediaType)
                              else old(backend.myList))
      ensures !old(IsInList(myList, mediaId, mediaType)) ==>
        && navigation == (if user.None? then old(navigation) + [LoginRoute] else old(navigation))
        && backend.myList == (if user.Some? && remoteOk then InsertNewestFirst(old(backend.myList),
                                  MembershipRow(insertedId, user.value, mediaId, mediaType, insertedAt), CreatedAt)
                              else old(backend.myList))
    {
      if IsInList(myList, mediaId, mediaType) {
        result := RemoveFromList(mediaId, mediaType, deleteOk := remoteOk, refetchOk := refetchOk);
      } else {
        result := AddToList(mediaId, mediaType, insertedId := insertedId, insertedAt := insertedAt,
                            insertOk := remoteOk, refetchOk := refetchOk);
      }
    }
  }
}
