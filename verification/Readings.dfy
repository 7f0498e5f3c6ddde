/** The upsert of readings by localID: what a list holds after any sequence of posts, and which
    sequences are answered normally. */
module Readings {
  import opened Wrappers
  import opened Text
  import opened ListStore
  import opened MeteringSpec
  import opened MeteringUris
  import opened MeteringInvariant

  function Count(posts: seq<ReadingItem>, id: Option<string>): nat {
    if posts == [] then 0
    else Count(posts[..|posts| - 1], id) + if posts[|posts| - 1].localId == id then 1 else 0
  }

  /** The last reading posted with this localID. */
  function LastWith(posts: seq<ReadingItem>, id: Option<string>): ReadingItem
    requires Count(posts, id) > 0
  {
    var r := posts[|posts| - 1];
    if r.localId == id then r else LastWith(posts[..|posts| - 1], id)
  }

  function Ids(posts: seq<ReadingItem>): set<Option<string>> {
    set k | 0 <= k < |posts| :: posts[k].localId
  }

  lemma {:induction false} CountPositive(posts: seq<ReadingItem>, id: Option<string>)
    ensures Count(posts, id) > 0 <==> id in Ids(posts)
  {
    if posts != [] {
      var n := |posts| - 1;
      CountPositive(posts[..n], id);
      assert forall k :: 0 <= k < n ==> posts[k] == posts[..n][k];
      if id in Ids(posts) && posts[n].localId != id {
        var k :| 0 <= k < |posts| && posts[k].localId == id;
        assert posts[..n][k].localId == id;
      }
    }
  }

  lemma CountSnoc(posts: seq<ReadingItem>, r: ReadingItem, id: Option<string>)
    ensures Count(posts + [r], id) == Count(posts, id) + if r.localId == id then 1 else 0
    ensures Count(posts + [r], id) > 0 ==>
              LastWith(posts + [r], id) == if r.localId == id then r else LastWith(posts, id)
  {
    assert (posts + [r])[..|posts|] == posts;
  }

  lemma IdsSnoc(posts: seq<ReadingItem>, r: ReadingItem)
    ensures Ids(posts + [r]) == Ids(posts) + {r.localId}
  {
    var all := posts + [r];
    assert all[|posts|] == r && forall k :: 0 <= k < |posts| ==> all[k] == posts[k];
    forall id | id in Ids(posts) ensures id in Ids(all) {
      var k :| 0 <= k < |posts| && posts[k].localId == id;
      assert all[k].localId == id;
    }
  }

  function Payload(r: Resource): (Option<string>, Option<Interval>, Option<int>)
    requires r.Reading?
  {
    (r.localId, r.timePeriod, r.value)
  }

  /* The upsert of one reading, on the list alone */

  /** What CreateOrUpdateReading makes of a list: a new localID is appended and numbered; a known one
      is stored under the key its predecessor's href ends in. */
  function UpsertInto(d: Dict, u: string, r: ReadingItem): Result<Dict> {
    match FirstWhere(d, LOCAL_ID, r.localId)
    case NoAttribute => Raise(AttributeError)
    case Missing => Ok(Put(d, |d|, WithHref(r, Sub(u, Dec(|d|)))))
    case Found(k) =>
      match KeyOfHref(d[k].item.href)
      case Raise(e) => Raise(e)
      case Ok(key) => Ok(Put(d, key, r))
  }

  lemma ReadingUpserts(s: Store, u: string, r: ReadingItem)
    requires WellFormed(s) && UriClass(u) == Some(ReadingClass)
    ensures var o := CreateOrUpdateReading(s, u, r);
            && WellFormed(o.store)
            && (forall v :: v != u ==> Items(o.store, v) == Items(s, v))
            && match UpsertInto(Items(s, u), u, r)
               case Raise(e) => o.result == Raise(e) && o.store == s
               case Ok(d) => o.result.Ok? && Items(o.store, u) == d
  {
    hide UriClass;
    hide Split;
    hide KeyOfHref;
    hide WellFormed;
    ReadingQuiet(s, u, r);
    ListUriIsNoItem(u);
    ListFacts(s, u);
  }

  /** The number of localIDs posted before the first post with this one: the slot of its entry. */
  function Rank(posts: seq<ReadingItem>, id: Option<string>): nat {
    if posts == [] then 0
    else
      var front := posts[..|posts| - 1];
      if Count(front, id) > 0 then Rank(front, id) else |Ids(front)|
  }

  lemma RankSnoc(posts: seq<ReadingItem>, r: ReadingItem, id: Option<string>)
    ensures Rank(posts + [r], id) == if Count(posts, id) > 0 then Rank(posts, id) else |Ids(posts)|
  {
    assert (posts + [r])[..|posts|] == posts;
  }

  /** The post may follow: from its third time on, a localID must come after a post whose own href
      ends in the slot of its entry, as a client's does that echoes the href it was served. */
  ghost predicate Returned(posts: seq<ReadingItem>, r: ReadingItem) {
    Count(posts, r.localId) >= 2 ==> KeyOfHref(LastWith(posts, r.localId).href) == Ok(Rank(posts, r.localId))
  }

  ghost predicate Returning(posts: seq<ReadingItem>) {
    forall n :: 0 <= n < |posts| ==> Returned(posts[..n], posts[n])
  }

  lemma ReturningSnoc(posts: seq<ReadingItem>, r: ReadingItem)
    ensures Returning(posts + [r]) <==> Returning(posts) && Returned(posts, r)
  {
    hide Returned;
    var all := posts + [r];
    assert all[..|posts|] == posts && all[|posts|] == r;
    assert forall n :: 0 <= n < |posts| ==> all[..n] == posts[..n] && all[n] == posts[n];
  }

  /* The list after posts that came back */

  /** The entry of a localID stands in its slot with what was last posted: numbered when it was
      posted once, and otherwise just as it came. */
  ghost predicate EntryTracks(u: string, e: Entry, k: nat, posts: seq<ReadingItem>) {
    && e.key == k && e.item.Reading? && Count(posts, e.item.localId) >= 1 && k == Rank(posts, e.item.localId)
    && var last := LastWith(posts, e.item.localId);
    e.item == if Count(posts, e.item.localId) == 1 then WithHref(last, Sub(u, Dec(k))) else last
  }

  /** The list after these posts: one entry for each localID. */
  ghost predicate Tracks(u: string, d: Dict, posts: seq<ReadingItem>) {
    && (forall k :: 0 <= k < |d| ==> EntryTracks(u, d[k], k, posts))
    && (forall j, k :: 0 <= j < k < |d| ==> d[j].item.localId != d[k].item.localId)
    && (forall id :: id in Ids(posts) ==> exists k :: 0 <= k < |d| && d[k].item.localId == id)
    && |d| == |Ids(posts)|
  }

  lemma TracksAt(u: string, d: Dict, posts: seq<ReadingItem>, k: nat)
    requires Tracks(u, d, posts) && k < |d|
    ensures EntryTracks(u, d[k], k, posts)
  {
  }

  lemma TracksReadings(u: string, d: Dict, posts: seq<ReadingItem>)
    requires Tracks(u, d, posts)
    ensures Dense(d) && forall k :: 0 <= k < |d| ==> d[k].item.Reading? && Attr(d[k].item, LOCAL_ID).Some?
  {
    forall k | 0 <= k < |d| ensures d[k].key == k && d[k].item.Reading? && Attr(d[k].item, LOCAL_ID).Some? {
      TracksAt(u, d, posts, k);
    }
  }

  /** A search finds the entry of a localID exactly when it was posted. */
  lemma TracksFind(u: string, d: Dict, posts: seq<ReadingItem>, id: Option<string>)
    requires Tracks(u, d, posts)
    ensures var h := FirstWhere(d, LOCAL_ID, id);
            if Count(posts, id) == 0 then h.Missing?
            else h.Found? && d[h.slot].item.Reading? && d[h.slot].item.localId == id
                 && EntryTracks(u, d[h.slot], h.slot, posts)
  {
    hide EntryTracks;
    TracksReadings(u, d, posts);
    CountPositive(posts, id);
    var h := FirstWhere(d, LOCAL_ID, id);
    if Count(posts, id) > 0 {
      var k :| 0 <= k < |d| && d[k].item.localId == id;
      assert Attr(d[k].item, LOCAL_ID) == Some(id);
      TracksAt(u, d, posts, h.slot);
    } else if h.Found? {
      TracksPosted(u, d, posts, h.slot);
    }
  }

  lemma TracksPosted(u: string, d: Dict, posts: seq<ReadingItem>, k: nat)
    requires Tracks(u, d, posts) && k < |d|
    ensures d[k].item.Reading? && Count(posts, d[k].item.localId) > 0
  {
    TracksAt(u, d, posts, k);
  }

  lemma EntriesTrackNew(u: string, d: Dict, d': Dict, posts: seq<ReadingItem>, r: ReadingItem)
    requires forall k :: 0 <= k < |d| ==> EntryTracks(u, d[k], k, posts)
    requires Count(posts, r.localId) == 0 && |d| == |Ids(posts)|
    requires forall k :: 0 <= k < |d| ==> d[k].item.Reading? && d[k].item.localId != r.localId
    requires d' == d + [Entry(|d|, WithHref(r, Sub(u, Dec(|d|))))]
    ensures forall k :: 0 <= k < |d'| ==> EntryTracks(u, d'[k], k, posts + [r])
  {
    hide Sub;
    hide Dec;
    hide Ids;
    CountSnoc(posts, r, r.localId);
    RankSnoc(posts, r, r.localId);
    forall k | 0 <= k < |d'| ensures EntryTracks(u, d'[k], k, posts + [r]) {
      if k < |d| {
        assert EntryTracks(u, d[k], k, posts);
        CountSnoc(posts, r, d[k].item.localId);
        RankSnoc(posts, r, d[k].item.localId);
      }
    }
  }

  /** A first post of a localID appends. */
  lemma TrackNew(u: string, d: Dict, posts: seq<ReadingItem>, r: ReadingItem)
    requires Tracks(u, d, posts) && Count(posts, r.localId) == 0
    ensures Tracks(u, d + [Entry(|d|, WithHref(r, Sub(u, Dec(|d|))))], posts + [r])
  {
    hide EntryTracks;
    hide Sub;
    hide Ids;
    hide Count;
    var d' := d + [Entry(|d|, WithHref(r, Sub(u, Dec(|d|))))];
    TracksReadings(u, d, posts);
    forall k | 0 <= k < |d| ensures d[k].item.localId != r.localId {
      TracksPosted(u, d, posts, k);
    }
    CountPositive(posts, r.localId);
    IdsSnoc(posts, r);
    EntriesTrackNew(u, d, d', posts, r);
    EntriesAreReadings(u, d', posts + [r]);
    IdsCovered(d, posts, r, WithHref(r, Sub(u, Dec(|d|))));
    assert |Ids(posts + [r])| == |d| + 1;
    DistinctSnoc(d, Entry(|d|, WithHref(r, Sub(u, Dec(|d|)))));
  }

  lemma DistinctSnoc(d: Dict, e: Entry)
    requires e.item.Reading? && forall k :: 0 <= k < |d| ==> d[k].item.Reading? && d[k].item.localId != e.item.localId
    requires forall j, k :: 0 <= j < k < |d| ==> d[j].item.localId != d[k].item.localId
    ensures var d' := d + [e];
            && (forall k :: 0 <= k < |d'| ==> d'[k].item.Reading?)
            && forall j, k :: 0 <= j < k < |d'| ==> d'[j].item.localId != d'[k].item.localId
  {
  }

  lemma IdsCovered(d: Dict, posts: seq<ReadingItem>, r: ReadingItem, item: Resource)
    requires item.Reading? && item.localId == r.localId && forall k :: 0 <= k < |d| ==> d[k].item.Reading?
    requires forall id :: id in Ids(posts) ==> exists k :: 0 <= k < |d| && d[k].item.localId == id
    ensures var d' := d + [Entry(|d|, item)];
            forall id :: id in Ids(posts + [r]) ==> exists k :: 0 <= k < |d'| && d'[k].item.localId == id
  {
    IdsSnoc(posts, r);
    var d' := d + [Entry(|d|, item)];
    forall id | id in Ids(posts + [r]) ensures exists k :: 0 <= k < |d'| && d'[k].item.localId == id {
      if id == r.localId {
        assert d'[|d|].item.localId == id;
      } else {
        var k :| 0 <= k < |d| && d[k].item.localId == id;
        assert d'[k].item.localId == id;
      }
    }
  }

  lemma EntriesAreReadings(u: string, d: Dict, posts: seq<ReadingItem>)
    requires forall k :: 0 <= k < |d| ==> EntryTracks(u, d[k], k, posts)
    ensures forall k :: 0 <= k < |d| ==> d[k].item.Reading?
  {
  }

  lemma EntriesTrackAgain(u: string, d: Dict, posts: seq<ReadingItem>, r: ReadingItem, k: nat)
    requires forall j :: 0 <= j < |d| ==> d[j].item.Reading? && EntryTracks(u, d[j], j, posts)
    requires forall i, j :: 0 <= i < j < |d| ==> d[i].item.localId != d[j].item.localId
    requires k < |d| && d[k].item.localId == r.localId
    ensures var d' := d[k := Entry(k, r)];
            forall j :: 0 <= j < |d'| ==> EntryTracks(u, d'[j], j, posts + [r])
  {
    hide Sub;
    hide Dec;
    hide Ids;
    var d' := d[k := Entry(k, r)];
    forall j | 0 <= j < |d'| ensures EntryTracks(u, d'[j], j, posts + [r]) {
      assert EntryTracks(u, d[j], j, posts);
      CountSnoc(posts, r, d[j].item.localId);
      RankSnoc(posts, r, d[j].item.localId);
    }
  }

  /** A later post that reaches its slot replaces its entry. */
  lemma TrackAgain(u: string, d: Dict, posts: seq<ReadingItem>, r: ReadingItem, k: nat)
    requires Tracks(u, d, posts) && k < |d| && d[k].item.Reading? && d[k].item.localId == r.localId
    ensures Tracks(u, d[k := Entry(k, r)], posts + [r])
  {
    hide EntryTracks;
    hide Count;
    var d' := d[k := Entry(k, r)];
    TracksReadings(u, d, posts);
    TracksPosted(u, d, posts, k);
    CountPositive(posts, r.localId);
    IdsSnoc(posts, r);
    assert Ids(posts + [r]) == Ids(posts);
    EntriesTrackAgain(u, d, posts, r, k);
    assert forall j :: 0 <= j < |d| ==> d'[j].item.localId == d[j].item.localId;
    forall id | id in Ids(posts + [r]) ensures exists j :: 0 <= j < |d'| && d'[j].item.localId == id {
      var j :| 0 <= j < |d| && d[j].item.localId == id;
      assert d'[j].item.localId == id;
    }
  }

  lemma LastNumbered(u: string, k: nat)
    ensures PyInt(Last(Split(Sub(u, Dec(k))))) == Some(k)
  {
    DecValue(k);
    SplitSub(u, Dec(k));
  }

  /** The list holds every posted localID once, with what was posted last. */
  ghost predicate Upserted(d: Dict, posts: seq<ReadingItem>) {
    && Dense(d) && |d| == |Ids(posts)|
    && (forall j, k :: 0 <= j < k < |d| ==> Attr(d[j].item, LOCAL_ID) != Attr(d[k].item, LOCAL_ID))
    && forall id :: id in Ids(posts) ==>
                      && Count(posts, id) > 0
                      && FirstWhere(d, LOCAL_ID, id).Found?
                      && d[FirstWhere(d, LOCAL_ID, id).slot].item.Reading?
                      && Payload(d[FirstWhere(d, LOCAL_ID, id).slot].item) == Payload(LastWith(posts, id))
  }

  lemma TracksUpserted(u: string, d: Dict, posts: seq<ReadingItem>)
    requires Tracks(u, d, posts)
    ensures Upserted(d, posts)
  {
    hide Ids;
    hide Dec;
    hide Sub;
    TracksReadings(u, d, posts);
    forall id | id in Ids(posts)
      ensures Count(posts, id) > 0 && FirstWhere(d, LOCAL_ID, id).Found?
      ensures d[FirstWhere(d, LOCAL_ID, id).slot].item.Reading?
      ensures Payload(d[FirstWhere(d, LOCAL_ID, id).slot].item) == Payload(LastWith(posts, id))
    {
      CountPositive(posts, id);
      TracksFind(u, d, posts, id);
    }
  }

  /** A post that does not come back is refused, or leaves its localID in two entries. */
  lemma StrayPost(u: string, d: Dict, posts: seq<ReadingItem>, r: ReadingItem)
    requires Tracks(u, d, posts) && !Returned(posts, r)
    ensures UpsertInto(d, u, r).Ok? ==> !Upserted(UpsertInto(d, u, r).value, posts + [r])
  {
    hide Ids;
    hide Sub;
    hide Dec;
    hide KeyOfHref;
    TracksFind(u, d, posts, r.localId);
    var k := FirstWhere(d, LOCAL_ID, r.localId).slot;
    if UpsertInto(d, u, r).Ok? {
      var key := KeyOfHref(d[k].item.href).value;
      var d' := Put(d, key, r);
      TracksReadings(u, d, posts);
      assert key != k;
      var z := Slot(d, key);
      assert d'[z].item == r && d'[k] == d[k] && z != k;
      assert Attr(d'[z].item, LOCAL_ID) == Attr(d'[k].item, LOCAL_ID);
    }
  }

  /** One post: the list stays right exactly when the post may follow. */
  lemma UpsertOne(u: string, d: Dict, posts: seq<ReadingItem>, r: ReadingItem)
    requires Tracks(u, d, posts)
    ensures var o := UpsertInto(d, u, r);
            && (Returned(posts, r) ==> o.Ok? && Tracks(u, o.value, posts + [r]))
            && (o.Ok? && Upserted(o.value, posts + [r]) <==> Returned(posts, r))
            && (Count(posts, r.localId) <= 1 ==> o.Ok?)
            && (Count(posts, r.localId) >= 2 ==> (o.Ok? <==> KeyOfHref(LastWith(posts, r.localId).href).Ok?))
            && (o.Raise? && (forall k :: 0 <= k < |posts| ==> posts[k].href.None?) ==> o.error == AttributeError)
  {
    hide Split;
    hide Tracks;
    hide Upserted;
    hide PyInt;
    TracksFind(u, d, posts, r.localId);
    TracksReadings(u, d, posts);
    if Count(posts, r.localId) > 0 {
      LastIsPosted(posts, r.localId);
    }
    if Returned(posts, r) {
      match FirstWhere(d, LOCAL_ID, r.localId) {
        case Missing =>
          TrackNew(u, d, posts, r);
          DensePut(d, |d|, WithHref(r, Sub(u, Dec(|d|))));
        case Found(k) =>
          LastNumbered(u, k);
          TrackAgain(u, d, posts, r, k);
          DensePut(d, k, r);
      }
      TracksUpserted(u, UpsertInto(d, u, r).value, posts + [r]);
    } else {
      StrayPost(u, d, posts, r);
    }
  }

  lemma LastIsPosted(posts: seq<ReadingItem>, id: Option<string>)
    requires Count(posts, id) > 0
    ensures LastWith(posts, id) in posts
  {
  }

  lemma NothingTracked(u: string)
    ensures Tracks(u, [], []) && Returning([])
  {
  }

  /* Posts one after the other */

  function UpsertAll(d: Dict, u: string, posts: seq<ReadingItem>): Result<Dict>
    decreases |posts|
  {
    if posts == [] then Ok(d)
    else
      var d1 :- UpsertInto(d, u, posts[0]);
      UpsertAll(d1, u, posts[1..])
  }

  lemma {:induction false} UpsertAllSnoc(d: Dict, u: string, posts: seq<ReadingItem>, r: ReadingItem)
    ensures UpsertAll(d, u, posts + [r]) ==
            match UpsertAll(d, u, posts)
            case Raise(e) => Raise(e)
            case Ok(d1) => UpsertInto(d1, u, r)
    decreases |posts|
  {
    hide UpsertInto;
    if posts == [] {
      assert ([] + [r])[1..] == [];
      assert forall x: Dict :: UpsertAll(x, u, []) == Ok(x);
    } else {
      assert (posts + [r])[1..] == posts[1..] + [r];
      var o := UpsertInto(d, u, posts[0]);
      if o.Ok? {
        UpsertAllSnoc(o.value, u, posts[1..], r);
      }
    }
  }

  lemma {:induction false} ReadingsUpsert(s: Store, u: string, posts: seq<ReadingItem>)
    requires WellFormed(s) && UriClass(u) == Some(ReadingClass)
    ensures var o := CreateOrUpdateReadings(s, u, posts);
            && WellFormed(o.store)
            && match UpsertAll(Items(s, u), u, posts)
               case Raise(e) => o.result == Raise(e)
               case Ok(d) => o.result.Ok? && Items(o.store, u) == d
    decreases |posts|
  {
    hide UriClass;
    hide WellFormed;
    hide UpsertInto;
    hide CreateOrUpdateReading;
    hide Items;
    if posts != [] {
      ReadingUpserts(s, u, posts[0]);
      var o := CreateOrUpdateReading(s, u, posts[0]);
      if o.result.Ok? {
        ReadingsUpsert(o.store, u, posts[1..]);
      }
    }
  }

  /** All of these posts were answered and the list is right after them. */
  ghost predicate Held(u: string, posts: seq<ReadingItem>) {
    UpsertAll([], u, posts).Ok? && Upserted(UpsertAll([], u, posts).value, posts)
  }

  lemma {:induction false} HeldIff(u: string, posts: seq<ReadingItem>)
    ensures (forall n :: 0 <= n <= |posts| ==> Held(u, posts[..n])) <==> Returning(posts)
    ensures Returning(posts) ==> UpsertAll([], u, posts).Ok? && Tracks(u, UpsertAll([], u, posts).value, posts)
    decreases |posts|
  {
    hide UpsertInto;
    hide UpsertAll;
    hide Upserted;
    hide Returned;
    hide Returning;
    hide Tracks;
    if posts == [] {
      NothingTracked(u);
      EmptyAll(u);
      TracksUpserted(u, [], []);
      assert posts[..0] == [];
    } else {
      var m := |posts| - 1;
      var front, r := posts[..m], posts[m];
      assert posts == front + [r] && posts[..|posts|] == posts;
      HeldIff(u, front);
      assert forall n :: 0 <= n <= m ==> front[..n] == posts[..n];
      ReturningSnoc(front, r);
      UpsertAllSnoc([], u, front, r);
      if Returning(front) {
        UpsertOne(u, UpsertAll([], u, front).value, front, r);
        assert Held(u, posts) <==> Returned(front, r);
        assert forall n :: 0 <= n <= m ==> Held(u, front[..n]);
      } else {
        var n :| 0 <= n <= m && !Held(u, front[..n]);
        assert !Held(u, posts[..n]);
      }
    }
  }

  lemma EmptyAll(u: string)
    ensures UpsertAll([], u, []) == Ok([])
  {
  }

  /** Posting readings, with or without hrefs of their own, to an empty list: after every prefix of
      the posts all were answered and the list holds each localID once, with what was posted last,
      if and only if each post that gives a localID for at least the third time follows one of that
      localID whose own href ends in the slot of its entry. */
  lemma UpsertReadings(s: Store, u: string, posts: seq<ReadingItem>)
    requires WellFormed(s) && UriClass(u) == Some(ReadingClass) && Items(s, u) == []
    ensures (forall n :: 0 <= n <= |posts| ==>
                           var o := CreateOrUpdateReadings(s, u, posts[..n]);
                           o.result.Ok? && Upserted(Items(o.store, u), posts[..n]))
       <==> Returning(posts)
    ensures Returning(posts) ==> var o := CreateOrUpdateReadings(s, u, posts);
                                 o.result.Ok? && Upserted(Items(o.store, u), posts)
  {
    hide UriClass;
    hide WellFormed;
    hide CreateOrUpdateReadings;
    hide UpsertAll;
    hide Upserted;
    hide Returning;
    hide Tracks;
    HeldIff(u, posts);
    forall n | 0 <= n <= |posts|
      ensures var o := CreateOrUpdateReadings(s, u, posts[..n]);
              (o.result.Ok? && Upserted(Items(o.store, u), posts[..n])) <==> Held(u, posts[..n])
    {
      ReadingsUpsert(s, u, posts[..n]);
    }
    assert posts[..|posts|] == posts;
  }

  /** No localID comes a third time. */
  ghost predicate Repeatable(posts: seq<ReadingItem>) {
    forall id :: Count(posts, id) <= 2
  }

  lemma {:induction false} PlainAll(u: string, posts: seq<ReadingItem>)
    requires forall k :: 0 <= k < |posts| ==> posts[k].href.None?
    ensures UpsertAll([], u, posts).Ok? <==> Repeatable(posts)
    ensures UpsertAll([], u, posts).Raise? ==> UpsertAll([], u, posts).error == AttributeError
    ensures Repeatable(posts) <==> Returning(posts)
    decreases |posts|
  {
    hide UpsertInto;
    hide UpsertAll;
    hide Upserted;
    hide Returning;
    hide Tracks;
    if posts == [] {
      NothingTracked(u);
      EmptyAll(u);
    } else {
      var m := |posts| - 1;
      var front, r := posts[..m], posts[m];
      assert posts == front + [r];
      PlainAll(u, front);
      HeldIff(u, front);
      ReturningSnoc(front, r);
      UpsertAllSnoc([], u, front, r);
      RepeatableSnoc(front, r);
      if Returning(front) {
        UpsertOne(u, UpsertAll([], u, front).value, front, r);
        if Count(front, r.localId) > 0 {
          LastIsPosted(front, r.localId);
        }
      }
    }
  }

  lemma RepeatableSnoc(posts: seq<ReadingItem>, r: ReadingItem)
    ensures Repeatable(posts + [r]) <==> Repeatable(posts) && Count(posts, r.localId) <= 1
  {
    CountSnoc(posts, r, r.localId);
    forall id ensures Count(posts + [r], id) == Count(posts, id) + if r.localId == id then 1 else 0 {
      CountSnoc(posts, r, id);
    }
  }

  /** Without hrefs of their own, readings posted to an empty list are all answered exactly when no
      localID comes more than twice; a third one finds an entry whose href the second removed. */
  lemma UpsertPlainReadings(s: Store, u: string, posts: seq<ReadingItem>)
    requires WellFormed(s) && UriClass(u) == Some(ReadingClass) && Items(s, u) == []
    requires forall k :: 0 <= k < |posts| ==> posts[k].href.None?
    ensures var o := CreateOrUpdateReadings(s, u, posts);
            && (o.result.Ok? <==> Repeatable(posts))
            && (o.result.Raise? ==> o.result.error == AttributeError)
            && (o.result.Ok? ==> Upserted(Items(o.store, u), posts))
  {
    hide UriClass;
    hide WellFormed;
    hide CreateOrUpdateReadings;
    hide UpsertAll;
    hide Upserted;
    hide Returning;
    hide Repeatable;
    PlainAll(u, posts);
    ReadingsUpsert(s, u, posts);
    UpsertReadings(s, u, posts);
  }

  /** An update of the only entry of a list stores the reading under the key the entry's href ends in. */
  lemma UpdateOfOnly(s: Store, u: string, e: ReadingItem, r: ReadingItem, key: nat)
    requires WellFormed(s) && UriClass(u) == Some(ReadingClass) && Items(s, u) == [Entry(0, e)]
    requires e.localId == r.localId && e.href.Some? && PyInt(Last(Split(e.href.value))) == Some(key)
    ensures var o := CreateOrUpdateReading(s, u, r);
            && o.result.Ok? && WellFormed(o.store)
            && Items(o.store, u) == if key == 0 then [Entry(0, r)] else [Entry(0, e), Entry(key, r)]
  {
    hide UriClass;
    hide Split;
    hide PyInt;
    ReadingQuiet(s, u, r);
    assert FirstWhere(Items(s, u), LOCAL_ID, r.localId) == Found(0);
    assert Slot(Items(s, u), key) == if key == 0 then 0 else 1;
  }

  lemma FirstOfEmpty(s: Store, u: string, r: ReadingItem)
    requires WellFormed(s) && UriClass(u) == Some(ReadingClass) && Items(s, u) == []
    ensures var o := CreateOrUpdateReading(s, u, r);
            && o.result.Ok? && WellFormed(o.store)
            && Items(o.store, u) == [Entry(0, WithHref(r, Sub(u, Dec(0))))]
  {
    hide UriClass;
    hide Split;
    ListUriIsNoItem(u);
    ReadingQuiet(s, u, r);
  }

  /** A posted href does break the list: it sends the next update to a key of the client's choice,
      and the localID is held twice. */
  lemma PostedHrefDuplicates(s: Store, u: string, id: Option<string>, n: nat)
    requires WellFormed(s) && UriClass(u) == Some(ReadingClass) && Items(s, u) == [] && n > 0
    ensures var plain := Reading(None, id, None, None);
            var foreign := Reading(Some(Sub("", Dec(n))), id, None, None);
            var o := CreateOrUpdateReadings(s, u, [plain, foreign, plain]);
            && o.result.Ok? && Items(o.store, u) == [Entry(0, foreign), Entry(n, plain)]
  {
    hide UriClass;
    hide Split;
    hide Sub;
    hide PyInt;
    hide WellFormed;
    hide CreateOrUpdateReading;
    hide CreateOrUpdateReadings;
    LastNumbered(u, 0);
    LastNumbered("", n);
    var plain: ReadingItem := Reading(None, id, None, None);
    var foreign: ReadingItem := Reading(Some(Sub("", Dec(n))), id, None, None);
    FirstOfEmpty(s, u, plain);
    var s1 := CreateOrUpdateReading(s, u, plain).store;
    UpdateOfOnly(s1, u, WithHref(plain, Sub(u, Dec(0))), foreign, 0);
    var s2 := CreateOrUpdateReading(s1, u, foreign).store;
    UpdateOfOnly(s2, u, foreign, plain, n);
    ThreePosts(s, u, plain, foreign, plain);
  }

  lemma OnePost(s: Store, u: string, r: ReadingItem)
    ensures var o, one := CreateOrUpdateReadings(s, u, [r]), CreateOrUpdateReading(s, u, r);
            o.store == one.store && (o.result.Ok? <==> one.result.Ok?)
  {
    hide CreateOrUpdateReading;
    assert [r][1..] == [];
    assert forall t: Store :: CreateOrUpdateReadings(t, u, []) == Outcome(t, Ok(()));
  }

  lemma ThreePosts(s: Store, u: string, a: ReadingItem, b: ReadingItem, c: ReadingItem)
    requires CreateOrUpdateReading(s, u, a).result.Ok?
    requires CreateOrUpdateReading(CreateOrUpdateReading(s, u, a).store, u, b).result.Ok?
    ensures var s2 := CreateOrUpdateReading(CreateOrUpdateReading(s, u, a).store, u, b).store;
            var o := CreateOrUpdateReading(s2, u, c);
            && CreateOrUpdateReadings(s, u, [a, b, c]).store == o.store
            && (CreateOrUpdateReadings(s, u, [a, b, c]).result.Ok? <==> o.result.Ok?)
  {
    hide CreateOrUpdateReading;
    assert [a, b, c][1..] == [b, c] && [b, c][1..] == [c];
    var s1 := CreateOrUpdateReading(s, u, a).store;
    var s2 := CreateOrUpdateReading(s1, u, b).store;
    assert CreateOrUpdateReadings(s1, u, [b, c]) == CreateOrUpdateReadings(s2, u, [c]);
    OnePost(s2, u, c);
  }
}
