/**
  `merge_posts`: the archive after a harvest. New records whose id is already
  archived are dropped, the rest are appended, and the whole list is sorted
  newest first by `saved_at`.
  */
module Merge {
  import opened Posts
  import opened Order

  /** `[post for post in new_posts if post.post_id not in existing_ids]` */
  function UniqueNew(existingIds: set<string>, news: seq<Post>): (r: seq<Post>)
    ensures forall p :: p in r <==> p in news && p.postId !in existingIds
    ensures |r| <= |news|
    decreases |news|
  {
    if news == [] then []
    else
      (if news[0].postId !in existingIds then [news[0]] else []) + UniqueNew(existingIds, news[1..])
  }

  function MergePosts(existing: seq<Post>, news: seq<Post>): seq<Post> {
    SortDesc(existing + UniqueNew(IdsOf(existing), news))
  }

  /** The merge is a permutation of the archive followed by the new records
      with fresh ids, and it is newest first. */
  lemma MergeSpec(existing: seq<Post>, news: seq<Post>)
    ensures var r := MergePosts(existing, news);
      && multiset(r) == multiset(existing + UniqueNew(IdsOf(existing), news))
      && SortedDesc(r)
  {
    SortPermutes(existing + UniqueNew(IdsOf(existing), news));
    SortSorted(existing + UniqueNew(IdsOf(existing), news));
  }

  /** Every archived record is kept unchanged, and every other record of the
      result is a new one whose id was not archived. */
  lemma MergeMembers(existing: seq<Post>, news: seq<Post>)
    ensures forall p :: p in MergePosts(existing, news) <==>
      p in existing || (p in news && p.postId !in IdsOf(existing))
  {
    var u := UniqueNew(IdsOf(existing), news);
    MergeSpec(existing, news);
    var r := MergePosts(existing, news);
    forall p ensures p in r <==> p in existing || p in u {
      assert p in r <==> p in multiset(r);
      assert p in existing + u <==> p in multiset(existing + u);
    }
  }

  /** The ids of the result are the archived ids and the new ids. */
  lemma MergeIds(existing: seq<Post>, news: seq<Post>)
    ensures IdsOf(MergePosts(existing, news)) == IdsOf(existing) + IdsOf(news)
  {
    var u := UniqueNew(IdsOf(existing), news);
    SortIds(existing + u);
    IdsOfAppend(existing, u);
    assert IdsOf(existing) + IdsOf(u) == IdsOf(existing) + IdsOf(news) by {
      forall id | id in IdsOf(news) ensures id in IdsOf(existing) + IdsOf(u) {
        var p :| p in news && p.postId == id;
        if id !in IdsOf(existing) { assert p in u; }
      }
    }
  }

  /** An archive and a batch without repeated ids merge into a list without
      repeated ids. */
  lemma MergeDistinct(existing: seq<Post>, news: seq<Post>)
    requires DistinctIds(existing) && DistinctIds(news)
    ensures DistinctIds(MergePosts(existing, news))
  {
    var u := UniqueNew(IdsOf(existing), news);
    UniqueNewDistinct(IdsOf(existing), news);
    assert IdsOf(existing) !! IdsOf(u);
    DistinctAppend(existing, u);
    SortIds(existing + u);
  }

  lemma {:induction false} UniqueNewDistinct(ids: set<string>, news: seq<Post>)
    requires DistinctIds(news)
    ensures DistinctIds(UniqueNew(ids, news))
    decreases |news|
  {
    if news != [] {
      assert news == [news[0]] + news[1..];
      DistinctCons(news[0], news[1..]);
      UniqueNewDistinct(ids, news[1..]);
      var rest := UniqueNew(ids, news[1..]);
      if news[0].postId !in ids {
        assert news[0].postId !in IdsOf(rest);
        DistinctCons(news[0], rest);
      } else {
        assert [] + rest == rest;
      }
    }
  }

  /** Merging nothing into an archive that is newest first gives it back. */
  lemma MergeNothing(existing: seq<Post>)
    requires SortedDesc(existing)
    ensures MergePosts(existing, []) == existing
  {
    assert existing + [] == existing;
    SortOfSorted(existing);
  }

  /** Merging the same batch twice is merging it once. */
  lemma MergeIdempotent(existing: seq<Post>, news: seq<Post>)
    ensures MergePosts(MergePosts(existing, news), news) == MergePosts(existing, news)
  {
    var m := MergePosts(existing, news);
    MergeIds(existing, news);
    MergeSpec(existing, news);
    NothingNew(IdsOf(m), news);
    assert m + [] == m;
    SortOfSorted(m);
  }

  lemma NothingNew(ids: set<string>, news: seq<Post>)
    requires IdsOf(news) <= ids
    ensures UniqueNew(ids, news) == []
  {
  }

  /** Repeated ids inside the batch itself are not removed: a record that is
      not yet archived and appears twice in the batch appears twice in the
      result. */
  lemma BatchDuplicatesKept(p: Post)
    ensures MergePosts([], [p, p]) == [p, p]
  {
    LexLeqRefl(p.savedAt);
    var none: seq<Post> := [];
    assert IdsOf(none) == {};
    assert UniqueNew({}, [p, p]) == [p, p] by {
      assert [p, p][1..] == [p];
      assert UniqueNew({}, [p]) == [p];
    }
    assert none + [p, p] == [p, p];
    assert SortDesc([p]) == [p];
    assert [p, p][1..] == [p];
    assert SortDesc([p, p]) == Insert(p, [p]);
  }
}
