/** Each request keeps the metering invariant, and what it may answer. */
module MeteringSteps {
  import opened Wrappers
  import opened Text
  import opened ListStore
  import opened MeteringSpec
  import opened MeteringUris
  import opened MeteringInvariant

  /** The lists of these classes are exactly as they were. */
  ghost predicate Untouched(s: Store, s': Store, cs: set<Class>) {
    forall u :: UriClass(u).Some? && UriClass(u).value in cs ==> Items(s', u) == Items(s, u)
  }

  const ABOVE_SETS: set<Class> := ROOT_CLASSES + METER_CLASSES

  lemma UntouchedTransitive(s: Store, s': Store, s'': Store, cs: set<Class>)
    requires Untouched(s, s', cs) && Untouched(s', s'', cs)
    ensures Untouched(s, s'', cs)
  {
    hide UriClass;
  }

  lemma UntouchedOutside(s: Store, s': Store, u: string, cs: set<Class>)
    requires UriClass(u).Some? && UriClass(u).value !in cs
    requires forall v :: v != u ==> Items(s', v) == Items(s, v)
    ensures Untouched(s, s', cs)
  {
    hide UriClass;
  }

  lemma UntouchedOutside2(s: Store, s': Store, u: string, m: string, cs: set<Class>)
    requires UriClass(u).Some? && UriClass(u).value !in cs && UriClass(m).Some? && UriClass(m).value !in cs
    requires forall v :: v != u && v != m ==> Items(s', v) == Items(s, v)
    ensures Untouched(s, s', cs)
  {
    hide UriClass;
  }

  /* Reading sets */

  /** The place of a new reading set, and the list of its readings. */
  lemma SetPlace(y: string, n: nat)
    ensures Sub(Sub(Upt(y), "rs"), Dec(n)) == Upt(Sub(Sub(y, "rs"), Dec(n)))
    ensures UriClass(Sub(Sub(Sub(Upt(y), "rs"), Dec(n)), "r")) == Some(ReadingClass)
    ensures UriClass(Sub(Upt(y), "rs")) == Some(ReadingSetClass)
    ensures UriClass(Sub(Mup(y), "rs")) == Some(MirrorReadingSetClass)
  {
    MupSub(y, "rs");
    MupSub(Sub(y, "rs"), Dec(n));
    SubClasses(Sub(Sub(y, "rs"), Dec(n)));
    SubClasses(y);
  }

  /** The set as stored once its reading list is linked. */
  function LinkedSet(item: ReadingSetItem, u: string, n: nat): Resource {
    ReadingSet(Some(Sub(u, Dec(n))), None, item.description, item.timePeriod, item.version,
               Some(Sub(Sub(u, Dec(n)), "r")))
  }

  /** The pair of a new set, its replica linked: all that happens before its readings are stored. */
  lemma PairLinked(s: Store, y: string, item: ReadingSetItem, paths: iset<string>)
    requires Inv(s, paths) && '/' !in y && forall p :: p in paths ==> RoutePath(p)
    ensures var u := Sub(Upt(y), "rs");
            var n := |Items(s, u)|;
            var o := CreateReadingSetPair(s, u, item);
            var s2 := Assign(o.store, Ref(u, n, LinkedSet(item, u, n)));
            && o.result == Ok(Ref(u, n, WithHref(BlankSet(item), Sub(u, Dec(n)))))
            && Inv(s2, paths) && Items(s2, u) == Items(s, u) + [Entry(n, LinkedSet(item, u, n))]
            && forall v :: v != u && v != Sub(Mup(y), "rs") ==> Items(s2, v) == Items(s, v)
  {
    hide UriClass;
    hide Split;
    hide Sub;
    hide Inv;
    hide WellFormed;
    hide CreateReadingSetPair;
    var u := Sub(Upt(y), "rs");
    var n := |Items(s, u)|;
    var s1 := CreateReadingSetPair(s, u, item).store;
    ReadingSetPairInv(s, y, item, paths);
    InvParts(s1, y, paths);
    var ref := Ref(u, n, LinkedSet(item, u, n));
    AssignQuiet(s1, ref);
    StillInv(s1, Assign(s1, ref), paths);
  }

  lemma PostIsPairThenReadings(s: Store, u: string, post: ReadingSetPost, n: nat)
    requires CreateOrUpdateReadingSet(s, u, post.item) == CreateReadingSetPair(s, u, post.item)
    requires CreateReadingSetPair(s, u, post.item).result
          == Ok(Ref(u, n, WithHref(BlankSet(post.item), Sub(u, Dec(n)))))
    ensures var s2 := Assign(CreateReadingSetPair(s, u, post.item).store, Ref(u, n, LinkedSet(post.item, u, n)));
            PostReadingSet(s, u, post) == CreateOrUpdateReadings(s2, Sub(Sub(u, Dec(n)), "r"), post.readings)
  {
    hide CreateReadingSetPair;
    hide CreateOrUpdateReadingSet;
    hide CreateOrUpdateReadings;
    hide Sub;
    hide Dec;
  }

  /** A set that is not created raises. */
  lemma PostOfFailedSet(s: Store, u: string, post: ReadingSetPost)
    requires CreateOrUpdateReadingSet(s, u, post.item).result.Raise?
    ensures var o := CreateOrUpdateReadingSet(s, u, post.item);
            PostReadingSet(s, u, post) == Outcome(o.store, Raise(o.result.error))
  {
    hide CreateOrUpdateReadingSet;
  }

  /** A post of one set either raises before storing anything, or stores a new pair and then
      its readings in the list of the new set; in either case the invariant holds after it. */
  lemma PostReadingSetInv(s: Store, y: string, post: ReadingSetPost, paths: iset<string>)
    requires Inv(s, paths) && '/' !in y && forall p :: p in paths ==> RoutePath(p)
    ensures var u := Sub(Upt(y), "rs");
            var o := PostReadingSet(s, u, post);
            && Inv(o.store, paths) && Untouched(s, o.store, ABOVE_SETS)
            && (o.result.Raise? ==> o.result.error in {AttributeError, ValueError})
            && (o.result.Ok? ==>
                  Items(o.store, u) == Items(s, u) + [Entry(|Items(s, u)|, LinkedSet(post.item, u, |Items(s, u)|))])
  {
    hide UriClass;
    hide Split;
    hide Inv;
    hide WellFormed;
    hide CreateOrUpdateReadingSet;
    hide CreateReadingSetPair;
    hide CreateOrUpdateReadings;
    hide PostReadingSet;
    hide LinkedSet;
    hide Untouched;
    hide Sub;
    hide Assign;
    var u := Sub(Upt(y), "rs");
    InvParts(s, y, paths);
    PostedSetHrefNeverUpdates(s, u, post.item);
    if CreateOrUpdateReadingSet(s, u, post.item) == CreateReadingSetPair(s, u, post.item) {
      var n := |Items(s, u)|;
      var list := Sub(Sub(u, Dec(n)), "r");
      PairLinked(s, y, post.item, paths);
      PostIsPairThenReadings(s, u, post, n);
      SetPlace(y, n);
      var s2 := Assign(CreateReadingSetPair(s, u, post.item).store, Ref(u, n, LinkedSet(post.item, u, n)));
      UntouchedOutside2(s, s2, u, Sub(Mup(y), "rs"), ABOVE_SETS);
      InvParts(s2, y, paths);
      ReadingsQuiet(s2, list, post.readings);
      var s3 := CreateOrUpdateReadings(s2, list, post.readings).store;
      UntouchedOutside(s2, s3, list, ABOVE_SETS);
      UntouchedTransitive(s, s2, s3, ABOVE_SETS);
      StillInv(s2, s3, paths);
    } else {
      PostOfFailedSet(s, u, post);
      UntouchedSame(s, ABOVE_SETS);
    }
  }

  lemma UntouchedSame(s: Store, cs: set<Class>)
    ensures Untouched(s, s, cs)
  {
  }

  lemma {:induction false} PostReadingSetsInv(s: Store, y: string, posts: seq<ReadingSetPost>, paths: iset<string>)
    requires Inv(s, paths) && '/' !in y && forall p :: p in paths ==> RoutePath(p)
    ensures var o := PostReadingSets(s, Sub(Upt(y), "rs"), posts);
            && Inv(o.store, paths) && Untouched(s, o.store, ABOVE_SETS)
            && (o.result.Raise? ==> o.result.error in {AttributeError, ValueError})
    decreases |posts|
  {
    hide UriClass;
    hide Inv;
    hide PostReadingSet;
    if posts != [] {
      PostReadingSetInv(s, y, posts[0], paths);
      var first := PostReadingSet(s, Sub(Upt(y), "rs"), posts[0]);
      if first.result.Ok? {
        PostReadingSetsInv(first.store, y, posts[1..], paths);
        UntouchedTransitive(s, first.store, PostReadingSets(s, Sub(Upt(y), "rs"), posts).store, ABOVE_SETS);
      }
    }
  }
}
