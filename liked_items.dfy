/** The liked-items store: an in-memory list mirrored into one local-storage
    entry, changed optimistically and then synchronised with the liked_items
    table, with a rollback when the backend refuses the change. */
module LikedItems {
  import opened Media
  import opened Seqs
  import opened Decimal
  import opened Remote

  /** What local storage holds under the likes key: nothing, text that does
      not parse, or a serialised list. */
  datatype Stored = Absent | Unparsable | Json(list: seq<LikedItem>)

  /** Reading the local copy: a missing or unparsable entry reads as no likes. */
  function GetLocalLikes(stored: Stored): (r: seq<LikedItem>)
    ensures !stored.Json? ==> r == []
    ensures stored.Json? ==> r == stored.list
  {
    match stored
    case Json(list) => list
    case _ => []
  }

  predicate Matches(item: LikedItem, mediaId: int, mediaType: MediaType) {
    item.mediaId == mediaId && item.mediaType == mediaType
  }

  /** `likedItems.some(item => item.media_id === mediaId && item.media_type === mediaType)`. */
  function IsLiked(items: seq<LikedItem>, mediaId: int, mediaType: MediaType := Movie): (r: bool)
    ensures r <==> exists i :: 0 <= i < |items| && Matches(items[i], mediaId, mediaType)
  {
    Any((x: LikedItem) => Matches(x, mediaId, mediaType), items)
  }

  /** The optimistic removal: every item carrying the pair is filtered out. */
  function WithoutPair(items: seq<LikedItem>, mediaId: int, mediaType: MediaType): (r: seq<LikedItem>)
    ensures !IsLiked(r, mediaId, mediaType)
    ensures forall i :: 0 <= i < |items| && !Matches(items[i], mediaId, mediaType) ==> items[i] in r
  {
    Filter((x: LikedItem) => !Matches(x, mediaId, mediaType), items)
  }

  /** The rollback of a refused insert: every item with the temporary id is filtered out. */
  function WithoutId(items: seq<LikedItem>, id: string): seq<LikedItem> {
    Filter((x: LikedItem) => x.id != id, items)
  }

  /** `temp_${Date.now()}`. */
  function TempId(now: nat): string {
    "temp_" + NatToString(now)
  }

  /** The optimistic entry prepended before the insert is confirmed. */
  function TempItem(now: nat, mediaId: int, mediaType: MediaType): LikedItem {
    LikedItem(TempId(now), mediaId, mediaType, now)
  }

  /** The local effect of a toggle, before any backend call. */
  function OptimisticToggle(items: seq<LikedItem>, mediaId: int, mediaType: MediaType, now: nat): seq<LikedItem> {
    if IsLiked(items, mediaId, mediaType) then WithoutPair(items, mediaId, mediaType)
    else [TempItem(now, mediaId, mediaType)] + items
  }

  ghost predicate NoDuplicatePairs(items: seq<LikedItem>) {
    Pairwise(items, (a: LikedItem, b: LikedItem) => !(a.mediaId == b.mediaId && a.mediaType == b.mediaType))
  }

  /** A toggle flips whether the pair is liked and leaves every other pair as it was. */
  lemma ToggleFlipsOnlyThePair(items: seq<LikedItem>, mediaId: int, mediaType: MediaType, now: nat, otherId: int, otherType: MediaType)
    requires otherId != mediaId || otherType != mediaType
    ensures IsLiked(OptimisticToggle(items, mediaId, mediaType, now), mediaId, mediaType) == !IsLiked(items, mediaId, mediaType)
    ensures IsLiked(OptimisticToggle(items, mediaId, mediaType, now), otherId, otherType) == IsLiked(items, otherId, otherType)
  {
    var r := OptimisticToggle(items, mediaId, mediaType, now);
    if IsLiked(items, mediaId, mediaType) {
      if IsLiked(items, otherId, otherType) {
        var i :| 0 <= i < |items| && Matches(items[i], otherId, otherType);
        assert items[i] in r;
        var k :| 0 <= k < |r| && r[k] == items[i];
      }
      if IsLiked(r, otherId, otherType) {
        var k :| 0 <= k < |r| && Matches(r[k], otherId, otherType);
        assert r[k] in items;
      }
    } else {
      assert Matches(r[0], mediaId, mediaType);
      assert forall i :: 0 <= i < |items| ==> r[i + 1] == items[i];
    }
  }

  /** Removing a pair keeps the remaining items in their original order: the
      removal distributes over any split of the list. */
  lemma RemovalKeepsOrder(a: seq<LikedItem>, b: seq<LikedItem>, mediaId: int, mediaType: MediaType)
    ensures WithoutPair(a + b, mediaId, mediaType) == WithoutPair(a, mediaId, mediaType) + WithoutPair(b, mediaId, mediaType)
  {
    FilterAppend((x: LikedItem) => !Matches(x, mediaId, mediaType), a, b);
  }

  /** Adding puts exactly one temporary entry for the pair in front of the unchanged list. */
  lemma AddPrependsOneTempItem(items: seq<LikedItem>, mediaId: int, mediaType: MediaType, now: nat)
    requires !IsLiked(items, mediaId, mediaType)
    ensures OptimisticToggle(items, mediaId, mediaType, now)[1..] == items
    ensures |OptimisticToggle(items, mediaId, mediaType, now)| == |items| + 1
    ensures var t := OptimisticToggle(items, mediaId, mediaType, now)[0];
      Matches(t, mediaId, mediaType) && t.id[..5] == "temp_"
  {
  }

  /** A list without duplicate pairs has none after a toggle. */
  lemma ToggleKeepsNoDuplicates(items: seq<LikedItem>, mediaId: int, mediaType: MediaType, now: nat)
    requires NoDuplicatePairs(items)
    ensures NoDuplicatePairs(OptimisticToggle(items, mediaId, mediaType, now))
  {
    var rel := (a: LikedItem, b: LikedItem) => !(a.mediaId == b.mediaId && a.mediaType == b.mediaType);
    if IsLiked(items, mediaId, mediaType) {
      FilterPairwise((x: LikedItem) => !Matches(x, mediaId, mediaType), items, rel);
    } else {
      var r := OptimisticToggle(items, mediaId, mediaType, now);
      forall i, j | 0 <= i < j < |r|
        ensures rel(r[i], r[j])
      {
        if i > 0 {
          assert r[i] == items[i - 1] && r[j] == items[j - 1];
        } else {
          assert r[j] == items[j - 1];
          assert !Matches(items[j - 1], mediaId, mediaType);
        }
      }
    }
  }

  /** Two toggles at different instants never produce the same temporary id. */
  lemma TempIdsDiffer(now1: nat, now2: nat)
    requires now1 != now2
    ensures TempId(now1) != TempId(now2)
  {
    var s1, s2 := TempId(now1), TempId(now2);
    if s1 == s2 {
      assert NatToString(now1) == s1[5..] == s2[5..] == NatToString(now2);
      ParseNatToString(now1);
      ParseNatToString(now2);
    }
  }

  /** The rollback of a refused insert gives back the list as it was before the
      toggle, provided no earlier entry carried the same temporary id. */
  lemma RollbackRestores(items: seq<LikedItem>, mediaId: int, mediaType: MediaType, now: nat)
    requires forall i :: 0 <= i < |items| ==> items[i].id != TempId(now)
    ensures WithoutId([TempItem(now, mediaId, mediaType)] + items, TempId(now)) == items
  {
    var keep := (x: LikedItem) => x.id != TempId(now);
    FilterAppend(keep, [TempItem(now, mediaId, mediaType)], items);
    FilterKeepsAll(keep, items);
  }

  /** The state of `useLikedItems`: the liked list, the loading flag, the
      signed-in user and the local-storage entry, next to the backend. */
  class LikedItemsHook {
    const backend: Backend
    /** Whether local storage accepts writes; a refused write is swallowed. */
    const storageWritable: bool
    var likedItems: seq<LikedItem>
    var loading: bool
    var userId: Option<string>
    var stored: Stored

    /** The local copy reads back as the in-memory list whenever storage accepts writes. */
    ghost predicate Valid()
      reads this, backend
    {
      backend.Valid() && (storageWritable ==> GetLocalLikes(stored) == likedItems)
    }

    /** Mounting: the list starts from the local copy for an instant first paint. */
    constructor (backend: Backend, stored: Stored, storageWritable: bool)
      requires backend.Valid()
      ensures Valid()
      ensures this.backend == backend && this.storageWritable == storageWritable && this.stored == stored
      ensures likedItems == GetLocalLikes(stored) && loading && userId == None
    {
      this.backend := backend;
      this.storageWritable := storageWritable;
      this.stored := stored;
      likedItems := [];
      loading := true;
      userId := None;
      new;
      var localLikes := GetLocalLikes(stored);
      if |localLikes| > 0 {
        likedItems := localLikes;
      }
    }

    /** Writing the local copy; a refused write leaves the entry as it was. */
    method SetLocalLikes(list: seq<LikedItem>)
      modifies this`stored
      ensures stored == if storageWritable then Json(list) else old(stored)
    {
      if storageWritable {
        stored := Json(list);
      }
    }

    /** Replaces the list and its local copy with the user's rows; a failed
        select changes nothing. */
    method FetchFromSupabase(uid: string, ok: bool)
      requires Valid()
      modifies this`likedItems, this`stored
      ensures Valid()
      ensures likedItems == if ok then LikedView(backend.likedItems, uid) else old(likedItems)
      ensures stored == if ok && storageWritable then Json(likedItems) else old(stored)
    {
      var data, error := backend.SelectLiked(ok, uid);
      if error {
        return;
      }
      var list := data;
      likedItems := list;
      SetLocalLikes(list);
    }

    /** The start-up check: record the user, load that user's likes, stop loading. */
    method Init(user: Option<string>, fetchOk: bool)
      requires Valid()
      modifies this
      ensures Valid()
      ensures userId == user && !loading
      ensures stored == if user.Some? && fetchOk && storageWritable then Json(likedItems) else old(stored)
      ensures likedItems == if user.Some? && fetchOk then LikedView(backend.likedItems, user.value) else old(likedItems)
    {
      userId := user;
      if user.Some? {
        FetchFromSupabase(user.value, fetchOk);
      }
      loading := false;
    }

    /** The auth listener: a signed-in session reloads from the backend, a
        sign-out falls back to the local copy without calling the backend. */
    method OnAuthStateChange(session: Option<string>, fetchOk: bool)
      requires Valid()
      modifies this
      ensures Valid()
      ensures userId == session && loading == old(loading)
      ensures session.None? ==> likedItems == GetLocalLikes(stored) && stored == old(stored)
      ensures session.Some? ==>
        && likedItems == (if fetchOk then LikedView(backend.likedItems, session.value) else old(likedItems))
        && stored == (if fetchOk && storageWritable then Json(likedItems) else old(stored))
    {
      userId := session;
      if session.Some? {
        FetchFromSupabase(session.value, fetchOk);
      } else {
        likedItems := GetLocalLikes(stored);
      }
    }

    /** Toggling a like: the list changes at once, the backend follows when a
        user is signed in, and a refused change is rolled back. `now` is the
        client clock, `insertedId` and `insertedAt` the id and time the backend
        gives an accepted insert; `remoteOk` and `refetchOk` are the outcomes of
        the insert or delete and of the select after it. */
    method ToggleLike(mediaId: int, mediaType: MediaType := Movie,
                      nameonly now: nat, nameonly insertedId: string, nameonly insertedAt: nat,
                      nameonly remoteOk: bool, nameonly refetchOk: bool)
      returns (success: bool)
      requires Valid()
      modifies this, backend
      ensures Valid()
      ensures userId == old(userId) && loading == old(loading)
      ensures storageWritable ==> stored == Json(likedItems)
      ensures !storageWritable ==> stored == old(stored)
      ensures backend.myList == old(backend.myList) && backend.watchProgress == old(backend.watchProgress)
      ensures userId.None? ==>
        success && likedItems == OptimisticToggle(old(likedItems), mediaId, mediaType, now)
        && backend.likedItems == old(backend.likedItems)
      ensures userId.Some? ==> success == remoteOk
      ensures userId.Some? && old(IsLiked(likedItems, mediaId, mediaType)) ==>
        && backend.likedItems == (if remoteOk then DeleteMembership(old(backend.likedItems), userId.value, mediaId, mediaType)
                                  else old(backend.likedItems))
        && likedItems == (if !remoteOk && refetchOk then LikedView(backend.likedItems, userId.value)
                          else WithoutPair(old(likedItems), mediaId, mediaType))
      ensures userId.Some? && !old(IsLiked(likedItems, mediaId, mediaType)) ==>
        && backend.likedItems == (if remoteOk then InsertNewestFirst(old(backend.likedItems),
                                      MembershipRow(insertedId, userId.value, mediaId, mediaType, insertedAt), CreatedAt)
                                  else old(backend.likedItems))
        && likedItems == (if !remoteOk then WithoutId([TempItem(now, mediaId, mediaType)] + old(likedItems), TempId(now))
                          else if refetchOk then LikedView(backend.likedItems, userId.value)
                          else [TempItem(now, mediaId, mediaType)] + old(likedItems))
    {
      var alreadyLiked := IsLiked(likedItems, mediaId, mediaType);

      if alreadyLiked {
        var updated := WithoutPair(likedItems, mediaId, mediaType);
        SetLocalLikes(updated);
        likedItems := updated;

        if userId.None? {
          return true;
        }

        var error := backend.DeleteLiked(remoteOk, userId.value, mediaId, mediaType);
        if error {
          FetchFromSupabase(userId.value, refetchOk);
          return false;
        }
        return true;
      }

      var tempItem := TempItem(now, mediaId, mediaType);
      var added := [tempItem] + likedItems;
      SetLocalLikes(added);
      likedItems := added;

      if userId.None? {
        return true;
      }

      var error := backend.InsertLiked(remoteOk, MembershipRow(insertedId, userId.value, mediaId, mediaType, insertedAt));
      if error {
        var rolledBack := WithoutId(likedItems, tempItem.id);
        SetLocalLikes(rolledBack);
        likedItems := rolledBack;
        return false;
      }

      FetchFromSupabase(userId.value, refetchOk);
      return true;
    }
  }
}
