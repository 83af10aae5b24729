/** The archived post record and the helpers that speak about its identity. */
module Posts {
  import opened Wrappers

  datatype Author = Author(username: string, displayName: string)

  datatype MediaKind = Image | Video

  /** One media entry `{"type": ..., "url": ...}`. */
  datatype Media = Media(kind: MediaKind, url: string)

  /** One record of the archive. `categories` and `keywords` are `None` when the
      field is missing from the stored document; the harvester creates both as
      `Some([])`. */
  datatype Post = Post(
    postId: string,
    url: string,
    author: Author,
    content: string,
    media: seq<Media>,
    timestamp: string,
    savedAt: string,
    categories: Option<seq<string>>,
    keywords: Option<seq<string>>)

  /** One reading of the wall clock: `datetime.now().timestamp()` as text, and
      `datetime.now(timezone.utc).isoformat()`. */
  datatype Instant = Instant(epochSeconds: string, isoUtc: string)

  /** The set of ids of a sequence of posts. */
  function IdsOf(posts: seq<Post>): set<string> {
    set p | p in posts :: p.postId
  }

  /** No two posts share an id. */
  predicate DistinctIds(posts: seq<Post>) {
    forall i, j :: 0 <= i < j < |posts| ==> posts[i].postId != posts[j].postId
  }

  lemma IdsOfAppend(a: seq<Post>, b: seq<Post>)
    ensures IdsOf(a + b) == IdsOf(a) + IdsOf(b)
  {
    assert forall p :: p in a + b <==> p in a || p in b;
  }

  lemma DistinctAppend(a: seq<Post>, b: seq<Post>)
    requires DistinctIds(a) && DistinctIds(b) && IdsOf(a) !! IdsOf(b)
    ensures DistinctIds(a + b)
  {
    forall i, j | 0 <= i < j < |a + b| ensures (a + b)[i].postId != (a + b)[j].postId {
      if j < |a| {
        assert (a + b)[i] == a[i] && (a + b)[j] == a[j];
      } else if i >= |a| {
        assert (a + b)[i] == b[i - |a|] && (a + b)[j] == b[j - |a|];
      } else {
        assert (a + b)[i] == a[i] && (a + b)[j] == b[j - |a|];
        assert a[i].postId in IdsOf(a) && b[j - |a|].postId in IdsOf(b);
      }
    }
  }
}
