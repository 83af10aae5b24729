/**
  `classify.py`: which records still need labels, the batches they are sent
  in, how a reply is cleaned, how the labels of a batch are written back
  into the archive, and the closing category statistics. The model service
  and `json.loads` are parameters.
  */
module Classify {
  import opened Wrappers
  import opened Text
  import opened Posts
  import opened Prompt

  // ----------------------------------------------------------------------
  // Records that still need labels
  // ----------------------------------------------------------------------

  /** `not post.get("categories")`: the field is missing or holds no category. */
  predicate Unclassified(p: Post) {
    p.categories.None? || p.categories.value == []
  }

  /** The records that still need labels, in archive order. */
  function UnclassifiedOf(posts: seq<Post>): seq<Post>
    decreases |posts|
  {
    if posts == [] then []
    else UnclassifiedOf(posts[..|posts| - 1]) + (if Unclassified(Last(posts)) then [Last(posts)] else [])
  }

  /** The records that carry labels, in archive order. */
  function ClassifiedOf(posts: seq<Post>): seq<Post>
    decreases |posts|
  {
    if posts == [] then []
    else ClassifiedOf(posts[..|posts| - 1]) + (if !Unclassified(Last(posts)) then [Last(posts)] else [])
  }

  /** The selection keeps exactly the records without labels, and since it
      is a filter it distributes over concatenation, so the order is kept. */
  lemma {:induction false} UnclassifiedSpec(posts: seq<Post>)
    ensures forall p :: p in UnclassifiedOf(posts) <==> p in posts && Unclassified(p)
    ensures forall p :: p in ClassifiedOf(posts) <==> p in posts && !Unclassified(p)
    ensures |UnclassifiedOf(posts)| + |ClassifiedOf(posts)| == |posts|
    decreases |posts|
  {
    if posts != [] {
      var init := posts[..|posts| - 1];
      UnclassifiedSpec(init);
      assert posts == init + [Last(posts)];
    }
  }

  lemma {:induction false} UnclassifiedAppend(a: seq<Post>, b: seq<Post>)
    ensures UnclassifiedOf(a + b) == UnclassifiedOf(a) + UnclassifiedOf(b)
    decreases |b|
  {
    if b == [] {
      assert a + b == a;
    } else {
      var init := b[..|b| - 1];
      UnclassifiedAppend(a, init);
      assert (a + b)[..|a + b| - 1] == a + init;
      assert Last(a + b) == Last(b);
    }
  }

  /** `get_unclassified_posts`: `None` when every record already has labels. */
  function GetUnclassifiedPosts(posts: seq<Post>): (r: Option<seq<Post>>)
    ensures r.None? <==> forall p :: p in posts ==> !Unclassified(p)
    ensures r.Some? ==> r.value == UnclassifiedOf(posts) && r.value != []
  {
    UnclassifiedSpec(posts);
    var u := UnclassifiedOf(posts);
    if u == [] then None
    else
      assert u[0] in u;
      Some(u)
  }

  // ----------------------------------------------------------------------
  // Batches
  // ----------------------------------------------------------------------

  /** `(len(unclassified_posts) + batch_size - 1) // batch_size` */
  function TotalBatches(n: nat): nat {
    (n + BatchSize - 1) / BatchSize
  }

  function Min(a: int, b: int): int {
    if a < b then a else b
  }

  /** `unclassified_posts[i:i + batch_size]` for `i` in `range(0, n, batch_size)`. */
  function Batches(posts: seq<Post>): seq<seq<Post>>
    decreases |posts|
  {
    if posts == [] then []
    else if |posts| <= BatchSize then [posts]
    else [posts[..BatchSize]] + Batches(posts[BatchSize..])
  }

  function Flatten(batches: seq<seq<Post>>): seq<Post>
    decreases |batches|
  {
    if batches == [] then [] else batches[0] + Flatten(batches[1..])
  }

  /** The batches are consecutive slices that together give back the list;
      each holds at least one and at most the batch size records, all but the
      last exactly the batch size; and there are `TotalBatches` of them. */
  lemma {:induction false} BatchesSpec(posts: seq<Post>)
    ensures Flatten(Batches(posts)) == posts
    ensures |Batches(posts)| == TotalBatches(|posts|)
    ensures forall k :: 0 <= k < |Batches(posts)| ==> 0 < |Batches(posts)[k]| <= BatchSize
    ensures forall k :: 0 <= k < |Batches(posts)| - 1 ==> |Batches(posts)[k]| == BatchSize
    decreases |posts|
  {
    if |posts| > BatchSize {
      var rest := posts[BatchSize..];
      BatchesSpec(rest);
      var bs := Batches(posts);
      assert bs[1..] == Batches(rest);
      assert posts == posts[..BatchSize] + rest;
      forall k | 0 <= k < |bs| ensures 0 < |bs[k]| <= BatchSize && (k < |bs| - 1 ==> |bs[k]| == BatchSize) {
        if k > 0 { assert bs[k] == Batches(rest)[k - 1]; }
      }
    } else if posts != [] {
      assert posts + [] == posts;
    }
  }

  /** There are as many batches as `total_batches` says. */
  lemma {:induction false} BatchCount(posts: seq<Post>)
    ensures |Batches(posts)| == TotalBatches(|posts|)
    decreases |posts|
  {
    if |posts| > BatchSize {
      BatchCount(posts[BatchSize..]);
    }
  }

  /** Batch `k` starts at offset `k` times the batch size. */
  lemma {:induction false} BatchAt(posts: seq<Post>, k: nat)
    requires k < |Batches(posts)|
    ensures 10 * k < |posts| && Batches(posts)[k] == posts[10 * k..Min(10 * k + 10, |posts|)]
    decreases |posts|
  {
    if |posts| > BatchSize && k > 0 {
      var rest := posts[BatchSize..];
      assert Batches(posts)[k] == Batches(rest)[k - 1];
      BatchAt(rest, k - 1);
      assert rest[10 * (k - 1)..Min(10 * (k - 1) + 10, |rest|)] == posts[10 * k..Min(10 * k + 10, |posts|)];
    }
  }

  /** There is a batch `k` exactly when its offset is inside the list. */
  lemma BatchExists(n: nat, k: nat)
    ensures 10 * k < n <==> k < TotalBatches(n)
  {
  }

  // ----------------------------------------------------------------------
  // One batch: prompt, reply, cleaning
  // ----------------------------------------------------------------------

  /** One entry of the decoded reply: `{"post_id", "categories", "keywords"}`. */
  datatype Classification = Classification(postId: string, categories: seq<string>, keywords: seq<string>)

  /** The chat-completion service: the reply text to the prompt of the batch
      with the given number, `None` when the request raises. */
  type Completion = (nat, string) -> Option<string>

  /** `json.loads` of a cleaned reply: `None` when it raises. */
  type Decoder = string -> Option<seq<Classification>>

  /** `result[3:-3]`: empty when fewer than six characters are left. */
  function DropFences(s: string): (r: string)
    ensures |s| >= 6 ==> s == s[..3] + r + s[|s| - 3..]
    ensures |s| < 6 ==> r == ""
  {
    if |s| >= 6 then s[3..|s| - 3] else ""
  }

  /** The markdown fences removed from a stripped reply. */
  function CleanReply(result: string): string {
    if StartsWith(result, "```json") then Strip(RemoveAll(RemoveAll(result, "```json"), "```"))
    else if StartsWith(result, "```") then Strip(DropFences(result))
    else result
  }

  /** A reply that does not open with a fence is decoded as it is. */
  lemma UnfencedReplyKept(result: string)
    requires !StartsWith(result, "```")
    ensures CleanReply(result) == result
  {
  }

  /** A body fenced by plain backticks comes back stripped. */
  lemma PlainFenceRemoved(body: string)
    requires !StartsWith(body, "json")
    ensures CleanReply("```" + body + "```") == Strip(body)
  {
    var s := "```" + body + "```";
    assert s[..3] == "```";
    assert !StartsWith(s, "```json") by {
      if |body| < 4 {
        assert s[3 + |body|] == '`';
      } else {
        assert s[3..7] == body[..4];
      }
    }
    assert s[3..|s| - 3] == body;
  }

  /** Removing a separator that opens the string and does not occur after it. */
  lemma RemoveLeading(p: string, t: string)
    requires |p| > 0 && !Contains(t, p)
    ensures RemoveAll(p + t, p) == t
  {
    FindAfterFree("", p, t);
    assert "" + p + t == p + t;
    SplitStep(p + t, p, 0);
    assert (p + t)[|p|..] == t;
    SplitSingle(t, p);
    JoinStep("", [t], "");
  }

  /** Removing a separator that closes the string and whose first character
      does not occur before it. */
  lemma RemoveTrailing(u: string, p: string)
    requires |p| > 0 && forall k :: 0 <= k < |u| ==> u[k] != p[0]
    ensures RemoveAll(u + p, p) == u
  {
    FindAfterFree(u, p, "");
    assert u + p + "" == u + p;
    SplitStep(u + p, p, |u|);
    assert (u + p)[..|u|] == u && (u + p)[|u| + |p|..] == "";
    SplitSingle("", p);
    JoinStep(u, [""], "");
  }

  /** A body without backticks fenced as a `json` block comes back stripped. */
  lemma JsonFenceRemoved(body: string)
    requires forall k :: 0 <= k < |body| ==> body[k] != '`'
    ensures CleanReply("```json" + body + "```") == Strip(body)
  {
    var open := "```json";
    var t := body + "```";
    assert open + body + "```" == open + t;
    assert (open + t)[..7] == open;
    forall j: nat | j <= |t| ensures !OccursAt(t, open, j) {
      if j < |body| {
        assert t[j] == body[j];
      }
    }
    RemoveLeading(open, t);
    RemoveTrailing(body, "```");
  }

  /** `classify_batch`: the classifications the reply to a batch's prompt gives,
      `[]` when the request or the decoding fails. */
  function BatchClassifications(k: nat, batch: seq<Post>, complete: Completion, serialize: Serializer, decode: Decoder): seq<Classification> {
    match complete(k, BuildClassificationPrompt(Prepared(batch), serialize))
    case None => []
    case Some(reply) =>
      match decode(CleanReply(Strip(reply)))
      case None => []
      case Some(cs) => cs
  }

  /** A batch whose request fails classifies nothing. */
  lemma FailedRequestGivesNothing(k: nat, batch: seq<Post>, complete: Completion, serialize: Serializer, decode: Decoder)
    requires complete(k, BuildClassificationPrompt(Prepared(batch), serialize)).None?
    ensures BatchClassifications(k, batch, complete, serialize, decode) == []
  {
  }

  /** What the batch's classifications are made of: the decoding of the
      cleaned reply to the prompt of exactly that batch's records. */
  lemma BatchDecodesItsReply(k: nat, batch: seq<Post>, complete: Completion, serialize: Serializer, decode: Decoder)
    requires BatchClassifications(k, batch, complete, serialize, decode) != []
    ensures var reply := complete(k, BuildClassificationPrompt(Prepared(batch), serialize));
      && reply.Some?
      && decode(CleanReply(Strip(reply.value))) == Some(BatchClassifications(k, batch, complete, serialize, decode))
  {
  }

  method ClassifyBatch(k: nat, batch: seq<Post>, complete: Completion, serialize: Serializer, decode: Decoder)
    returns (classifications: seq<Classification>)
    ensures classifications == BatchClassifications(k, batch, complete, serialize, decode)
  {
    var prepared := PreparePostsForClassification(batch);
    var prompt := BuildClassificationPrompt(prepared, serialize);
    var response := complete(k, prompt);
    if response.None? {
      return [];
    }
    var result := Strip(response.value);
    if StartsWith(result, "```json") {
      result := Strip(RemoveAll(RemoveAll(result, "```json"), "```"));
    } else if StartsWith(result, "```") {
      result := Strip(DropFences(result));
    }
    var decoded := decode(result);
    if decoded.None? {
      return [];
    }
    classifications := decoded.value;
  }

  // ----------------------------------------------------------------------
  // Writing labels back
  // ----------------------------------------------------------------------

  /** `{c['post_id']: c for c in classifications}`: a later entry with an id
      replaces an earlier one. */
  function IndexOf(cs: seq<Classification>): map<string, Classification>
    decreases |cs|
  {
    if cs == [] then map[] else IndexOf(cs[..|cs| - 1])[Last(cs).postId := Last(cs)]
  }

  function ClassifiedIds(cs: seq<Classification>): set<string> {
    set c | c in cs :: c.postId
  }

  /** No later entry has the id of entry `i`. */
  predicate LastWithId(cs: seq<Classification>, i: int)
    requires 0 <= i < |cs|
  {
    forall j :: i < j < |cs| ==> cs[j].postId != cs[i].postId
  }

  /** The index holds exactly the classified ids. */
  lemma {:induction false} IndexKeys(cs: seq<Classification>)
    ensures IndexOf(cs).Keys == ClassifiedIds(cs)
    decreases |cs|
  {
    if cs != [] {
      var init := cs[..|cs| - 1];
      IndexKeys(init);
      assert cs == init + [Last(cs)];
      assert ClassifiedIds(cs) == ClassifiedIds(init) + {Last(cs).postId};
    }
  }

  /** The index maps an id to the last entry with that id. */
  lemma {:induction false} IndexLastWins(cs: seq<Classification>, i: int)
    requires 0 <= i < |cs| && LastWithId(cs, i)
    ensures cs[i].postId in IndexOf(cs) && IndexOf(cs)[cs[i].postId] == cs[i]
    decreases |cs|
  {
    if i < |cs| - 1 {
      var init := cs[..|cs| - 1];
      assert Last(cs).postId != cs[i].postId;
      assert init[i] == cs[i];
      assert LastWithId(init, i) by {
        forall j | i < j < |init| ensures init[j].postId != init[i].postId {
          assert init[j] == cs[j];
        }
      }
      IndexLastWins(init, i);
    }
  }

  /** Every entry has a last entry with its id. */
  lemma LastWithIdExists(cs: seq<Classification>, i: int)
    requires 0 <= i < |cs|
    ensures exists l :: i <= l < |cs| && cs[l].postId == cs[i].postId && LastWithId(cs, l)
    decreases |cs| - i
  {
    if !LastWithId(cs, i) {
      var j :| i < j < |cs| && cs[j].postId == cs[i].postId;
      LastWithIdExists(cs, j);
    }
  }

  /** A record after a successful batch: its categories and keywords replaced by
      those of its id's classification, when there is one. */
  function Labelled(p: Post, index: map<string, Classification>): Post {
    if p.postId in index then
      p.(categories := Some(index[p.postId].categories), keywords := Some(index[p.postId].keywords))
    else p
  }

  function Relabelled(posts: seq<Post>, cs: seq<Classification>): (r: seq<Post>)
    ensures |r| == |posts|
    decreases |posts|
  {
    if posts == [] then [] else Relabelled(posts[..|posts| - 1], cs) + [Labelled(Last(posts), IndexOf(cs))]
  }

  lemma {:induction false} RelabelledAt(posts: seq<Post>, cs: seq<Classification>)
    ensures forall k :: 0 <= k < |posts| ==> Relabelled(posts, cs)[k] == Labelled(posts[k], IndexOf(cs))
    decreases |posts|
  {
    if posts != [] {
      var init := posts[..|posts| - 1];
      RelabelledAt(init, cs);
      assert forall k :: 0 <= k < |init| ==> init[k] == posts[k];
    }
  }

  /** `q` is `p` with at most its labels changed. */
  predicate SameExceptLabels(p: Post, q: Post) {
    q == p.(categories := q.categories, keywords := q.keywords)
  }

  /** After a successful batch a record whose id was not classified is
      unchanged; every record whose id was classified, whether once or more,
      carries the labels of the last classification with that id, and nothing
      else about it changes. */
  lemma RelabelledSpec(posts: seq<Post>, cs: seq<Classification>)
    ensures forall k :: 0 <= k < |posts| && posts[k].postId !in ClassifiedIds(cs) ==>
      Relabelled(posts, cs)[k] == posts[k]
    ensures forall k :: 0 <= k < |posts| && posts[k].postId in ClassifiedIds(cs) ==>
      exists i :: && 0 <= i < |cs| && cs[i].postId == posts[k].postId && LastWithId(cs, i)
                  && Relabelled(posts, cs)[k]
                     == posts[k].(categories := Some(cs[i].categories), keywords := Some(cs[i].keywords))
  {
    IndexKeys(cs);
    RelabelledAt(posts, cs);
    forall k | 0 <= k < |posts| && posts[k].postId in ClassifiedIds(cs)
      ensures exists i :: && 0 <= i < |cs| && cs[i].postId == posts[k].postId && LastWithId(cs, i)
                          && Relabelled(posts, cs)[k]
                             == posts[k].(categories := Some(cs[i].categories), keywords := Some(cs[i].keywords))
    {
      var c :| c in cs && c.postId == posts[k].postId;
      var i0 :| 0 <= i0 < |cs| && cs[i0] == c;
      LastWithIdExists(cs, i0);
      var l :| i0 <= l < |cs| && cs[l].postId == cs[i0].postId && LastWithId(cs, l);
      IndexLastWins(cs, l);
      assert IndexOf(cs)[posts[k].postId] == cs[l];
    }
  }

  /** The inner loop of `process_batches` over `all_posts`. */
  method WriteBack(all: array<Post>, cs: seq<Classification>)
    modifies all
    ensures all[..] == Relabelled(old(all[..]), cs)
  {
    var index := IndexOf(cs);
    for j := 0 to all.Length
      invariant forall t :: 0 <= t < j ==> all[t] == Labelled(old(all[t]), index)
      invariant forall t :: j <= t < all.Length ==> all[t] == old(all[t])
    {
      if all[j].postId in index {
        var classification := index[all[j].postId];
        all[j] := all[j].(categories := Some(classification.categories), keywords := Some(classification.keywords));
      }
    }
    RelabelledAt(old(all[..]), cs);
  }

  // ----------------------------------------------------------------------
  // All batches
  // ----------------------------------------------------------------------

  /** How each batch is classified: by its number from 0 and its records. */
  type Classifier = (nat, seq<Post>) -> seq<Classification>

  /** `classify_batch` with the given service, serialisation and decoding. */
  function ClassifierOf(complete: Completion, serialize: Serializer, decode: Decoder): Classifier {
    (k: nat, batch: seq<Post>) => BatchClassifications(k, batch, complete, serialize, decode)
  }

  /** `classify` is `classify_batch` with the given service, serialisation and decoding. */
  ghost predicate ClassifiesAs(classify: Classifier, complete: Completion, serialize: Serializer, decode: Decoder) {
    forall k: nat, batch: seq<Post> {:trigger BatchClassifications(k, batch, complete, serialize, decode)} ::
      classify(k, batch) == BatchClassifications(k, batch, complete, serialize, decode)
  }

  lemma ClassifierClassifies(complete: Completion, serialize: Serializer, decode: Decoder)
    ensures ClassifiesAs(ClassifierOf(complete, serialize, decode), complete, serialize, decode)
  {
  }

  /** The classifications of each batch, by batch number from 0. */
  function ResultsBy(classify: Classifier, batches: seq<seq<Post>>): (r: seq<seq<Classification>>)
    ensures |r| == |batches|
    decreases |batches|
  {
    if batches == [] then [] else ResultsBy(classify, batches[..|batches| - 1]) + [classify(|batches| - 1, Last(batches))]
  }

  /** Result `k` is what the classifier gives for batch `k`. */
  lemma {:induction false} ResultsAt(classify: Classifier, batches: seq<seq<Post>>, k: nat)
    requires k < |batches|
    ensures ResultsBy(classify, batches)[k] == classify(k, batches[k])
    decreases |batches|
  {
    if k < |batches| - 1 {
      ResultsAt(classify, batches[..|batches| - 1], k);
    }
  }

  /** The classifications of every batch of the records to classify. */
  function BatchResults(unclassified: seq<Post>, complete: Completion, serialize: Serializer, decode: Decoder): seq<seq<Classification>> {
    ResultsBy(ClassifierOf(complete, serialize, decode), Batches(unclassified))
  }

  /** The archive after the first `k` batches with these results: a batch
      that gave classifications relabels it, one that gave none leaves it as
      it was. */
  function Processed(posts: seq<Post>, results: seq<seq<Classification>>, k: nat): (r: seq<Post>)
    requires k <= |results|
    ensures |r| == |posts|
  {
    if k == 0 then posts
    else
      var before := Processed(posts, results, k - 1);
      if results[k - 1] == [] then before else Relabelled(before, results[k - 1])
  }

  /** `successful_batches` after the first `k` batches: those that gave
      classifications. */
  function Successes(results: seq<seq<Classification>>, k: nat): (r: nat)
    requires k <= |results|
  {
    if k == 0 then 0 else Successes(results, k - 1) + (if results[k - 1] != [] then 1 else 0)
  }

  /** At most every batch succeeds, and none does exactly when every batch
      gave nothing. */
  lemma {:induction false} SuccessesBound(results: seq<seq<Classification>>, k: nat)
    requires k <= |results|
    ensures Successes(results, k) <= k
    ensures Successes(results, k) == 0 <==> forall b :: 0 <= b < k ==> results[b] == []
  {
    if k > 0 {
      SuccessesBound(results, k - 1);
    }
  }

  /** Processing changes nothing but labels. */
  lemma {:induction false} ProcessedKeepsRecords(posts: seq<Post>, results: seq<seq<Classification>>, k: nat)
    requires k <= |results|
    ensures forall j :: 0 <= j < |posts| ==> SameExceptLabels(posts[j], Processed(posts, results, k)[j])
  {
    if k > 0 {
      ProcessedKeepsRecords(posts, results, k - 1);
      RelabelledAt(Processed(posts, results, k - 1), results[k - 1]);
    }
  }

  /** A record whose id no batch classified is left exactly as it was. */
  lemma {:induction false} ProcessedLeavesUnnamed(posts: seq<Post>, results: seq<seq<Classification>>, k: nat, j: int)
    requires k <= |results| && 0 <= j < |posts|
    requires forall b :: 0 <= b < k ==> posts[j].postId !in ClassifiedIds(results[b])
    ensures Processed(posts, results, k)[j] == posts[j]
  {
    if k > 0 {
      ProcessedLeavesUnnamed(posts, results, k - 1, j);
      if results[k - 1] != [] {
        RelabelledAt(Processed(posts, results, k - 1), results[k - 1]);
        IndexKeys(results[k - 1]);
      }
    }
  }

  /** When every batch failed the archive is unchanged. */
  lemma {:induction false} AllFailedChangesNothing(posts: seq<Post>, results: seq<seq<Classification>>, k: nat)
    requires k <= |results|
    requires forall b :: 0 <= b < k ==> results[b] == []
    ensures Processed(posts, results, k) == posts
  {
    if k > 0 {
      AllFailedChangesNothing(posts, results, k - 1);
    }
  }

  /** The step from `k` batches to `k + 1`. */
  lemma ProcessedNext(posts: seq<Post>, results: seq<seq<Classification>>, k: nat)
    requires k < |results|
    ensures Processed(posts, results, k + 1) ==
      if results[k] == [] then Processed(posts, results, k) else Relabelled(Processed(posts, results, k), results[k])
    ensures Successes(results, k + 1) == Successes(results, k) + (if results[k] != [] then 1 else 0)
  {
  }

  /** One pass of the batch loop: classify the batch, and write the
      classifications back when there are any. */
  method ProcessBatch(k: nat, batch: seq<Post>, all: array<Post>, complete: Completion, serialize: Serializer, decode: Decoder, ghost classify: Classifier)
    returns (classified: bool)
    requires ClassifiesAs(classify, complete, serialize, decode)
    modifies all
    ensures classified == (classify(k, batch) != [])
    ensures all[..] == if classified then Relabelled(old(all[..]), classify(k, batch)) else old(all[..])
  {
    var classifications := ClassifyBatch(k, batch, complete, serialize, decode);
    classified := classifications != [];
    if classified {
      WriteBack(all, classifications);
    }
  }

  lemma BatchNumber(k: nat)
    ensures (10 * k) / BatchSize == k
  {
  }

  /** The batch loop of `process_batches`, for a classifier given by its
      relation to `classify_batch`. */
  method BatchLoop(unclassified: seq<Post>, all: array<Post>, complete: Completion, serialize: Serializer, decode: Decoder, ghost classify: Classifier)
    returns (successful: nat, failed: nat)
    requires ClassifiesAs(classify, complete, serialize, decode)
    modifies all
    ensures var results := ResultsBy(classify, Batches(unclassified));
      && all[..] == Processed(old(all[..]), results, |results|)
      && successful == Successes(results, |results|)
      && successful + failed == TotalBatches(|unclassified|)
  {
    var n := |unclassified|;
    successful := 0;
    failed := 0;
    ghost var batches := Batches(unclassified);
    ghost var results := ResultsBy(classify, batches);
    BatchCount(unclassified);
    BatchExists(n, 0);
    ghost var k := 0;
    var i := 0;
    while i < n
      invariant i == 10 * k && 0 <= k <= |batches|
      invariant i < n <==> k < |batches|
      invariant all[..] == Processed(old(all[..]), results, k)
      invariant successful == Successes(results, k) && successful + failed == k
    {
      var batch := unclassified[i..Min(i + BatchSize, n)];
      assert results[k] == classify(i / BatchSize, batch) by {
        BatchAt(unclassified, k);
        BatchNumber(k);
        ResultsAt(classify, batches, k);
      }
      BatchExists(n, k + 1);
      ProcessedNext(old(all[..]), results, k);
      var classified := ProcessBatch(i / BatchSize, batch, all, complete, serialize, decode, classify);
      if classified {
        successful := successful + 1;
      } else {
        failed := failed + 1;
      }
      i := i + BatchSize;
      k := k + 1;
    }
  }

  /** `process_batches`: the archive after every batch's write-back, the
      number of batches that gave classifications and the number that did
      not, which together are the number of batches. */
  method ProcessBatches(unclassified: seq<Post>, all: array<Post>, complete: Completion, serialize: Serializer, decode: Decoder)
    returns (successful: nat, failed: nat)
    modifies all
    ensures var results := BatchResults(unclassified, complete, serialize, decode);
      && all[..] == Processed(old(all[..]), results, |results|)
      && successful == Successes(results, |results|)
      && successful + failed == TotalBatches(|unclassified|)
  {
    ClassifierClassifies(complete, serialize, decode);
    successful, failed := BatchLoop(unclassified, all, complete, serialize, decode, ClassifierOf(complete, serialize, decode));
  }

  // ----------------------------------------------------------------------
  // Final statistics
  // ----------------------------------------------------------------------

  /** `post.get("categories", [])` */
  function CategoryList(p: Post): seq<string> {
    if p.categories.Some? then p.categories.value else []
  }

  /** `post.get("keywords", [])` */
  function KeywordList(p: Post): seq<string> {
    if p.keywords.Some? then p.keywords.value else []
  }

  /** The categories of the records, one after another. */
  function CategoriesOf(posts: seq<Post>): seq<string>
    decreases |posts|
  {
    if posts == [] then [] else CategoriesOf(posts[..|posts| - 1]) + CategoryList(Last(posts))
  }

  /** The keywords of the records, one after another. */
  function KeywordsOf(posts: seq<Post>): seq<string>
    decreases |posts|
  {
    if posts == [] then [] else KeywordsOf(posts[..|posts| - 1]) + KeywordList(Last(posts))
  }

  /** How often `x` occurs in `xs`. */
  function Occurrences(xs: seq<string>, x: string): (r: nat)
    ensures r > 0 <==> x in xs
    decreases |xs|
  {
    if xs == [] then 0
    else
      assert xs == xs[..|xs| - 1] + [Last(xs)];
      Occurrences(xs[..|xs| - 1], x) + (if Last(xs) == x then 1 else 0)
  }

  lemma OccurrencesSnoc(xs: seq<string>, x: string)
    ensures forall c :: Occurrences(xs + [x], c) == Occurrences(xs, c) + if x == c then 1 else 0
  {
    assert (xs + [x])[..|xs|] == xs;
  }

  predicate Distinct(xs: seq<string>) {
    forall i, j :: 0 <= i < j < |xs| ==> xs[i] != xs[j]
  }

  /** `counts.get(key, 0)` */
  function CountOf(counts: map<string, nat>, key: string): nat {
    if key in counts then counts[key] else 0
  }

  /** The counts of the keys, added up. */
  function SumOver(keys: seq<string>, counts: map<string, nat>): nat
    decreases |keys|
  {
    if keys == [] then 0 else CountOf(counts, keys[0]) + SumOver(keys[1..], counts)
  }

  lemma {:induction false} SumOverFrame(keys: seq<string>, a: map<string, nat>, b: map<string, nat>)
    requires forall i :: 0 <= i < |keys| ==> CountOf(a, keys[i]) == CountOf(b, keys[i])
    ensures SumOver(keys, a) == SumOver(keys, b)
    decreases |keys|
  {
    if keys != [] {
      assert forall i :: 0 <= i < |keys| - 1 ==> keys[1..][i] == keys[i + 1];
      SumOverFrame(keys[1..], a, b);
    }
  }

  /** Counting one more of a key already listed adds one to the sum. */
  lemma {:induction false} SumOverBump(keys: seq<string>, counts: map<string, nat>, c: string)
    requires Distinct(keys) && c in keys
    ensures SumOver(keys, counts[c := CountOf(counts, c) + 1]) == SumOver(keys, counts) + 1
    decreases |keys|
  {
    var bumped := counts[c := CountOf(counts, c) + 1];
    var rest := keys[1..];
    if keys[0] == c {
      assert forall i :: 0 <= i < |rest| ==> rest[i] == keys[i + 1] && keys[i + 1] != keys[0];
      SumOverFrame(rest, counts, bumped);
    } else {
      assert c in rest by {
        var i :| 0 <= i < |keys| && keys[i] == c;
        assert rest[i - 1] == c;
      }
      assert Distinct(rest) by {
        assert forall i :: 0 <= i < |rest| ==> rest[i] == keys[i + 1];
      }
      SumOverBump(rest, counts, c);
    }
  }

  /** Listing a new key with count one adds one to the sum. */
  lemma {:induction false} SumOverNew(keys: seq<string>, counts: map<string, nat>, c: string)
    requires c !in keys && c !in counts
    ensures SumOver(keys + [c], counts[c := 1]) == SumOver(keys, counts) + 1
    decreases |keys|
  {
    if keys == [] {
      assert ([] + [c])[1..] == [];
    } else {
      assert (keys + [c])[1..] == keys[1..] + [c];
      SumOverNew(keys[1..], counts, c);
    }
  }

  /** The extending loop of `print_final_statistics`: the categories and the
      keywords of the records, one record after another. */
  method GatherLabels(classified: seq<Post>) returns (allCategories: seq<string>, allKeywords: seq<string>)
    ensures allCategories == CategoriesOf(classified) && allKeywords == KeywordsOf(classified)
  {
    allCategories := [];
    allKeywords := [];
    for t := 0 to |classified|
      invariant allCategories == CategoriesOf(classified[..t]) && allKeywords == KeywordsOf(classified[..t])
    {
      assert classified[..t + 1][..t] == classified[..t];
      allCategories := allCategories + CategoryList(classified[t]);
      allKeywords := allKeywords + KeywordList(classified[t]);
    }
    assert classified[..|classified|] == classified;
  }

  /** The dictionary `category_counts` after counting `xs`. */
  function CountsOf(xs: seq<string>): map<string, nat>
    decreases |xs|
  {
    if xs == [] then map[]
    else
      var counts := CountsOf(xs[..|xs| - 1]);
      counts[Last(xs) := CountOf(counts, Last(xs)) + 1]
  }

  /** The keys of `CountsOf(xs)` in the order the dictionary keeps them: the
      order in which they were first inserted. */
  function KeyOrderOf(xs: seq<string>): seq<string>
    decreases |xs|
  {
    if xs == [] then []
    else
      var order := KeyOrderOf(xs[..|xs| - 1]);
      if Last(xs) in CountsOf(xs[..|xs| - 1]) then order else order + [Last(xs)]
  }

  /** The dictionary holds exactly the categories that occur, each counted
      as often as it occurs. */
  lemma {:induction false} CountsOccurrences(xs: seq<string>)
    ensures forall c :: c in CountsOf(xs) <==> c in xs
    ensures forall c :: c in CountsOf(xs) ==> CountsOf(xs)[c] == Occurrences(xs, c)
    decreases |xs|
  {
    if xs != [] {
      var init := xs[..|xs| - 1];
      assert xs == init + [Last(xs)];
      CountsOccurrences(init);
      OccurrencesSnoc(init, Last(xs));
    }
  }

  /** The key order lists every key of the dictionary once. */
  lemma {:induction false} KeyOrderLists(xs: seq<string>)
    ensures Distinct(KeyOrderOf(xs))
    ensures forall c :: c in KeyOrderOf(xs) <==> c in CountsOf(xs)
    decreases |xs|
  {
    if xs != [] {
      var init := xs[..|xs| - 1];
      var cat := Last(xs);
      KeyOrderLists(init);
      var order := KeyOrderOf(init);
      if cat !in CountsOf(init) {
        var order' := order + [cat];
        forall i, j | 0 <= i < j < |order'| ensures order'[i] != order'[j] {
          assert order'[i] == order[i];
          if j < |order| { assert order'[j] == order[j]; }
        }
      }
    }
  }

  /** The counts add up to the number of entries counted. */
  lemma {:induction false} CountsSum(xs: seq<string>)
    ensures SumOver(KeyOrderOf(xs), CountsOf(xs)) == |xs|
    decreases |xs|
  {
    if xs != [] {
      var init := xs[..|xs| - 1];
      var cat := Last(xs);
      CountsSum(init);
      KeyOrderLists(init);
      var counts := CountsOf(init);
      if cat in counts {
        SumOverBump(KeyOrderOf(init), counts, cat);
      } else {
        SumOverNew(KeyOrderOf(init), counts, cat);
      }
    }
  }

  /** The counting loop of `print_final_statistics`. */
  method CountCategories(allCategories: seq<string>) returns (order: seq<string>, counts: map<string, nat>)
    ensures order == KeyOrderOf(allCategories) && counts == CountsOf(allCategories)
    ensures forall c :: c in counts <==> c in allCategories
    ensures forall c :: c in counts ==> counts[c] == Occurrences(allCategories, c)
    ensures Distinct(order) && forall c :: c in order <==> c in counts
    ensures SumOver(order, counts) == |allCategories|
  {
    counts := map[];
    order := [];
    for t := 0 to |allCategories|
      invariant order == KeyOrderOf(allCategories[..t]) && counts == CountsOf(allCategories[..t])
    {
      assert allCategories[..t + 1][..t] == allCategories[..t];
      var cat := allCategories[t];
      if cat !in counts {
        order := order + [cat];
      }
      counts := counts[cat := CountOf(counts, cat) + 1];
    }
    assert allCategories[..|allCategories|] == allCategories;
    CountsOccurrences(allCategories);
    KeyOrderLists(allCategories);
    CountsSum(allCategories);
  }

  /** `print_final_statistics`, without the printing: the classified records,
      their categories and keywords, and the category counts. */
  method FinalStatistics(posts: seq<Post>)
    returns (classified: seq<Post>, allCategories: seq<string>, allKeywords: seq<string>,
             order: seq<string>, counts: map<string, nat>)
    ensures classified == ClassifiedOf(posts)
    ensures allCategories == CategoriesOf(classified) && allKeywords == KeywordsOf(classified)
    ensures forall c :: c in counts ==> counts[c] == Occurrences(allCategories, c)
    ensures forall c :: c in counts <==> c in allCategories
    ensures Distinct(order) && forall c :: c in order <==> c in counts
    ensures SumOver(order, counts) == |allCategories|
  {
    classified := ClassifiedOf(posts);
    allCategories, allKeywords := GatherLabels(classified);
    order, counts := CountCategories(allCategories);
  }
}
