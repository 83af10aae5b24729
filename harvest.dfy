/**
  The harvester's loop: collect the post containers of the page, extract a
  record from each, keep the ones not seen before in this run, and scroll
  again until the page runs dry, a streak of empty rounds ends the run, or the
  round ceiling is reached (`collect_post_elements_on_page`,
  `extract_posts_from_elements`, `scroll_and_extract_posts`).

  The browser is a feed of page snapshots, one per round; the wall clock
  reads `clock(round, k)` for the k-th container of a round; the mid-run save
  is a merge into the stored archive.
  */
module Harvest {
  import opened Wrappers
  import opened Text
  import opened Dom
  import opened Posts
  import opened Selectors
  import opened Extract
  import opened Merge

  const SmartModeMax := 50
  const FullModeMax := 100
  const NoNewPostsLimit := 20
  const SaveInterval := 10

  // ---------------------------------------------------------------- containers

  /** A container the harvester keeps: it has a post link or a content span. */
  predicate LooksLikePost(c: Container) {
    QuerySelector(c, PostLinkSelector).Some? || QuerySelector(c, ContentMarkerSelector).Some?
  }

  /** The post-like containers, in document order. */
  function KeepPostLike(cs: seq<Container>): (r: seq<Container>)
    ensures |r| <= |cs|
    decreases |cs|
  {
    if cs == [] then []
    else KeepPostLike(cs[..|cs| - 1]) + (if LooksLikePost(Last(cs)) then [Last(cs)] else [])
  }

  /** The cascade over container selectors: the post-like matches of the
      first selector that matches anything at all, `[]` when none does. */
  function CollectedFrom(page: Page, selectors: seq<string>): seq<Container>
    decreases |selectors|
  {
    if selectors == [] then []
    else
      var matches := PageQueryAll(page, selectors[0]);
      if matches != [] then KeepPostLike(matches) else CollectedFrom(page, selectors[1..])
  }

  /** The containers of one round. */
  function CollectedOn(page: Page): seq<Container> {
    CollectedFrom(page, PostSelectors)
  }

  lemma {:induction false} KeepPostLikeMembers(cs: seq<Container>)
    ensures forall c :: c in KeepPostLike(cs) <==> c in cs && LooksLikePost(c)
    decreases |cs|
  {
    if cs != [] {
      KeepPostLikeMembers(cs[..|cs| - 1]);
      assert cs == cs[..|cs| - 1] + [Last(cs)];
    }
  }

  /** The cascade keeps only post-like containers, finds nothing when no
      selector matches, and otherwise keeps the post-like matches of the first
      selector that matches. */
  lemma {:induction false} CollectedFromSpec(page: Page, selectors: seq<string>)
    ensures var r := CollectedFrom(page, selectors);
      && (forall c :: c in r ==> LooksLikePost(c))
      && ((forall i :: 0 <= i < |selectors| ==> PageQueryAll(page, selectors[i]) == []) ==> r == [])
    ensures forall i ::
      (&& 0 <= i < |selectors| && PageQueryAll(page, selectors[i]) != []
       && (forall j :: 0 <= j < i ==> PageQueryAll(page, selectors[j]) == []))
      ==> CollectedFrom(page, selectors) == KeepPostLike(PageQueryAll(page, selectors[i]))
    decreases |selectors|
  {
    if selectors != [] {
      var matches := PageQueryAll(page, selectors[0]);
      if matches != [] {
        KeepPostLikeMembers(matches);
      } else {
        var rest := selectors[1..];
        CollectedFromSpec(page, rest);
        assert forall i :: 0 < i < |selectors| ==> selectors[i] == rest[i - 1];
      }
    }
  }

  /** Every collected container is post-like and was matched by the first
      selector that matches anything, and no selector before it matched.
      Nothing is collected exactly when no selector matches or none of the
      first matching selector's containers is post-like. */
  lemma CollectedSpec(page: Page)
    ensures var r := CollectedOn(page);
      && (forall c :: c in r ==> LooksLikePost(c))
      && ((forall i :: 0 <= i < |PostSelectors| ==> PageQueryAll(page, PostSelectors[i]) == []) ==> r == [])
    ensures var r := CollectedOn(page);
      forall i ::
        (&& 0 <= i < |PostSelectors| && PageQueryAll(page, PostSelectors[i]) != []
         && (forall j :: 0 <= j < i ==> PageQueryAll(page, PostSelectors[j]) == []))
        ==> forall c :: c in r <==> c in PageQueryAll(page, PostSelectors[i]) && LooksLikePost(c)
  {
    CollectedFromSpec(page, PostSelectors);
    forall i | 0 <= i < |PostSelectors| {
      KeepPostLikeMembers(PageQueryAll(page, PostSelectors[i]));
    }
  }

  /** The collection stops at the first selector with matches even when none of
      them is post-like: later selectors are never tried. */
  lemma CollectionStopsAtFirstMatch(page: Page)
    requires PageQueryAll(page, PostSelectors[0]) != []
    requires forall c :: c in PageQueryAll(page, PostSelectors[0]) ==> !LooksLikePost(c)
    ensures CollectedOn(page) == []
  {
    KeepNone(PageQueryAll(page, PostSelectors[0]));
  }

  lemma {:induction false} KeepNone(cs: seq<Container>)
    requires forall c :: c in cs ==> !LooksLikePost(c)
    ensures KeepPostLike(cs) == []
    decreases |cs|
  {
    if cs != [] {
      assert Last(cs) in cs;
      KeepNone(cs[..|cs| - 1]);
    }
  }

  /** `collect_post_elements_on_page` */
  method CollectPostElementsOnPage(page: Page) returns (postElements: seq<Container>)
    ensures postElements == CollectedOn(page)
  {
    postElements := [];
    var i := 0;
    while i < |PostSelectors|
      invariant 0 <= i <= |PostSelectors|
      invariant CollectedFrom(page, PostSelectors[i..]) == CollectedOn(page)
    {
      var elements := PageQueryAll(page, PostSelectors[i]);
      if elements != [] {
        postElements := FilterPostLike(elements);
        return;
      }
      assert PostSelectors[i..][1..] == PostSelectors[i + 1..];
      i := i + 1;
    }
  }

  /** The filtering loop of `collect_post_elements_on_page`. */
  method FilterPostLike(elements: seq<Container>) returns (kept: seq<Container>)
    ensures kept == KeepPostLike(elements)
  {
    kept := [];
    for k := 0 to |elements|
      invariant kept == KeepPostLike(elements[..k])
    {
      assert elements[..k + 1][..k] == elements[..k];
      var hasPostLink := QuerySelector(elements[k], PostLinkSelector);
      var hasContent := QuerySelector(elements[k], ContentMarkerSelector);
      if hasPostLink.Some? || hasContent.Some? {
        kept := kept + [elements[k]];
      }
    }
    assert elements[..|elements|] == elements;
  }

  // ---------------------------------------------------------------- one round

  /** The ids seen so far in this run, a set the round adds to in place. */
  class SeenIds {
    var ids: set<string>

    constructor ()
      ensures ids == {}
    {
      ids := {};
    }

    method Add(id: string)
      modifies this
      ensures ids == old(ids) + {id}
    {
      ids := ids + {id};
    }
  }

  /** What a round has produced so far: the appended records, the existing
      hits, how often the "failed to extract" report was given, and the
      seen-set. */
  datatype RoundResult = RoundResult(newPosts: seq<Post>, existingFound: nat, failureReports: nat, seen: set<string>)

  /** The id belongs to the archive the run was started with (an empty
      archive counts as none). */
  predicate IsExistingHit(existing: Option<set<string>>, id: string) {
    existing.Some? && existing.value != {} && id in existing.value
  }

  /** One container of a round, given what was extracted from it. */
  function Step(r: RoundResult, extracted: Option<Post>, existing: Option<set<string>>): RoundResult {
    match extracted
    case None => r.(failureReports := r.failureReports + 1)
    case Some(p) =>
      if p.postId in r.seen then r.(failureReports := r.failureReports + 1)
      else if IsExistingHit(existing, p.postId) then r.(existingFound := r.existingFound + 1)
      else if p.content != "" || p.media != [] || p.postId != "" then
        r.(newPosts := r.newPosts + [p], seen := r.seen + {p.postId})
      else r
  }

  /** A round over the extraction results of its containers, in order. */
  function RoundOver(extracted: seq<Option<Post>>, seen: set<string>, existing: Option<set<string>>): RoundResult
    decreases |extracted|
  {
    if extracted == [] then RoundResult([], 0, 0, seen)
    else Step(RoundOver(extracted[..|extracted| - 1], seen, existing), Last(extracted), existing)
  }

  /** How a record is extracted from a container at a given time: the
      harvester passes `PostDataOf`, which `ExtractPostData` computes. */
  type Extractor = (Container, Instant) -> Option<Post>

  /** The extraction of each container, the k-th at time `now(k)`. */
  function Extractions(elements: seq<Container>, extract: Extractor, now: nat -> Instant): (r: seq<Option<Post>>)
    ensures |r| == |elements|
    decreases |elements|
  {
    if elements == [] then []
    else Extractions(elements[..|elements| - 1], extract, now) + [extract(Last(elements), now(|elements| - 1))]
  }

  /** The k-th extraction is that of the k-th container at its time. */
  lemma {:induction false} ExtractionsAt(elements: seq<Container>, extract: Extractor, now: nat -> Instant, k: nat)
    requires k < |elements|
    ensures Extractions(elements, extract, now)[k] == extract(elements[k], now(k))
    decreases |elements|
  {
    var init := elements[..|elements| - 1];
    if k < |init| {
      ExtractionsAt(init, extract, now, k);
    }
  }

  /** `extract_posts_from_elements` over the containers of a round. */
  function RoundOf(elements: seq<Container>, seen: set<string>, existing: Option<set<string>>, extract: Extractor, now: nat -> Instant): RoundResult {
    RoundOver(Extractions(elements, extract, now), seen, existing)
  }

  /** Every record the extractor gives has an id. */
  ghost predicate GivesIds(extract: Extractor) {
    forall c: Container, t: Instant :: extract(c, t).Some? ==> extract(c, t).value.postId != ""
  }

  /** `extract_post_data` gives every record an id. */
  lemma PostDataOfGivesIds()
    ensures GivesIds(PostDataOf)
  {
    forall c: Container, t: Instant ensures PostDataOf(c, t).Some? ==> PostDataOf(c, t).value.postId != "" {
      assert PostDataOf(c, t) == PostDataOf(c, t);
    }
  }

  /** A round adds to the seen-set exactly the ids it returns; those ids were
      not seen before, are pairwise distinct, and are not in a non-empty
      archive; existing hits are only counted when there is such an archive. */
  lemma {:induction false} RoundSpec(extracted: seq<Option<Post>>, seen: set<string>, existing: Option<set<string>>)
    ensures var r := RoundOver(extracted, seen, existing);
      && r.seen == seen + IdsOf(r.newPosts)
      && IdsOf(r.newPosts) !! seen
      && DistinctIds(r.newPosts)
      && (existing.Some? && existing.value != {} ==> IdsOf(r.newPosts) !! existing.value)
      && (existing.None? || existing.value == {} ==> r.existingFound == 0)
      && (forall p :: p in r.newPosts ==> Some(p) in extracted)
    decreases |extracted|
  {
    if extracted != [] {
      var init := extracted[..|extracted| - 1];
      RoundSpec(init, seen, existing);
      var prev := RoundOver(init, seen, existing);
      assert extracted == init + [Last(extracted)];
      var r := RoundOver(extracted, seen, existing);
      if r.newPosts != prev.newPosts {
        var p := Last(extracted).value;
        assert r.newPosts == prev.newPosts + [p];
        IdsOfAppend(prev.newPosts, [p]);
        assert IdsOf([p]) == {p.postId};
        DistinctAppend(prev.newPosts, [p]);
      }
    }
  }

  /** Each container is accounted for exactly once, as an appended record, an
      existing hit or a failure report, when every extracted id is non-empty. */
  lemma {:induction false} RoundAccounts(extracted: seq<Option<Post>>, seen: set<string>, existing: Option<set<string>>)
    requires forall k :: 0 <= k < |extracted| && extracted[k].Some? ==> extracted[k].value.postId != ""
    ensures var r := RoundOver(extracted, seen, existing);
      |r.newPosts| + r.existingFound + r.failureReports == |extracted|
    decreases |extracted|
  {
    if extracted != [] {
      var init := extracted[..|extracted| - 1];
      assert forall k :: 0 <= k < |init| ==> init[k] == extracted[k];
      RoundAccounts(init, seen, existing);
    }
  }

  /** The "basic validation" never rejects an extracted record: every
      container of a real round is appended, counted as existing, or reported
      as failed. */
  lemma ValidationAlwaysPasses(elements: seq<Container>, seen: set<string>, existing: Option<set<string>>, extract: Extractor, now: nat -> Instant)
    requires GivesIds(extract)
    ensures var r := RoundOf(elements, seen, existing, extract, now);
      |r.newPosts| + r.existingFound + r.failureReports == |elements|
  {
    var extracted := Extractions(elements, extract, now);
    forall k | 0 <= k < |extracted| && extracted[k].Some? ensures extracted[k].value.postId != "" {
      ExtractionsAt(elements, extract, now, k);
    }
    RoundAccounts(extracted, seen, existing);
  }

  /** An existing hit does not enter the seen-set: the same archived id met
      twice in a round is counted twice. */
  lemma ExistingHitNotSeen(p: Post, q: Post, seen: set<string>, existing: set<string>)
    requires p.postId == q.postId && p.postId in existing && p.postId !in seen
    ensures RoundOver([Some(p), Some(q)], seen, Some(existing))
         == RoundResult([], 2, 0, seen)
  {
    var none: seq<Option<Post>> := [];
    assert [Some(p), Some(q)][..1] == [Some(p)];
    assert [Some(p)][..0] == none;
    assert RoundOver(none, seen, Some(existing)) == RoundResult([], 0, 0, seen);
    assert RoundOver([Some(p)], seen, Some(existing)) == RoundResult([], 1, 0, seen);
  }

  /** An id already seen in this run gets the same report as a container
      nothing could be extracted from. */
  lemma SeenIdReportedAsFailure(p: Post, q: Post, seen: set<string>)
    requires p.postId == q.postId && p.postId !in seen && p.postId != ""
    ensures RoundOver([Some(p), Some(q)], seen, None)
         == RoundResult([p], 0, 1, seen + {p.postId})
  {
    var none: seq<Option<Post>> := [];
    var nothing: seq<Post> := [];
    assert [Some(p), Some(q)][..1] == [Some(p)];
    assert [Some(p)][..0] == none;
    assert RoundOver(none, seen, None) == RoundResult(nothing, 0, 0, seen);
    assert nothing + [p] == [p];
    assert RoundOver([Some(p)], seen, None) == RoundResult([p], 0, 0, seen + {p.postId});
  }

  /** `extract_posts_from_elements`: the seen-set is updated in place. */
  method ExtractPostsFromElements(postElements: seq<Container>, seen: SeenIds, existing: Option<set<string>>, extract: Extractor, now: nat -> Instant)
    returns (newPosts: seq<Post>, existingFound: nat)
    modifies seen
    ensures var r := RoundOf(postElements, old(seen.ids), existing, extract, now);
      newPosts == r.newPosts && existingFound == r.existingFound && seen.ids == r.seen
  {
    ghost var seen0 := seen.ids;
    ghost var failures := 0;
    newPosts := [];
    existingFound := 0;
    for k := 0 to |postElements|
      invariant RoundOver(Extractions(postElements[..k], extract, now), seen0, existing)
             == RoundResult(newPosts, existingFound, failures, seen.ids)
    {
      var postData := extract(postElements[k], now(k));
      ghost var before := Extractions(postElements[..k], extract, now);
      assert postElements[..k + 1][..k] == postElements[..k];
      assert Extractions(postElements[..k + 1], extract, now) == before + [postData];
      assert (before + [postData])[..k] == before;
      newPosts, existingFound, failures := Visit(postData, seen, existing, newPosts, existingFound, failures);
    }
    assert postElements[..|postElements|] == postElements;
  }

  /** The body of the loop of `extract_posts_from_elements`, for one container. */
  method Visit(postData: Option<Post>, seen: SeenIds, existing: Option<set<string>>, newPosts0: seq<Post>, found0: nat, ghost failures0: nat)
    returns (newPosts: seq<Post>, existingFound: nat, ghost failures: nat)
    modifies seen
    ensures RoundResult(newPosts, existingFound, failures, seen.ids)
         == Step(RoundResult(newPosts0, found0, failures0, old(seen.ids)), postData, existing)
  {
    newPosts, existingFound, failures := newPosts0, found0, failures0;
    var stopOnExisting := existing.Some?;
    if postData.Some? && postData.value.postId !in seen.ids {
      var post := postData.value;
      if stopOnExisting && existing.value != {} && post.postId in existing.value {
        existingFound := existingFound + 1;
      } else if post.content != "" || post.media != [] || post.postId != "" {
        newPosts := newPosts + [post];
        seen.Add(post.postId);
      }
    } else {
      failures := failures + 1;
    }
  }

  // ---------------------------------------------------------------- the scroll loop

  /** The round ceiling: smart mode when the archive is non-empty. */
  function MaxScrolls(existing: Option<set<string>>): (n: nat)
    ensures n == SmartModeMax || n == FullModeMax
  {
    if existing.Some? && existing.value != {} then SmartModeMax else FullModeMax
  }

  datatype Outcome = Running | NoContainers | NoNewPosts | RoundLimit

  /** The loop's state: the records so far, the seen-set, the empty-round
      counter, the rounds entered, the number of records each round with
      containers appended, the rounds that saved, the records each of those
      saves wrote, and how the loop ended. */
  datatype Scroll = Scroll(
    posts: seq<Post>,
    seen: set<string>,
    noNew: nat,
    rounds: nat,
    counts: seq<nat>,
    checkpoints: seq<nat>,
    saved: seq<seq<Post>>,
    outcome: Outcome)

  const Start := Scroll([], {}, 0, 0, [], [], [], Running)

  /** The clock of one round. */
  function RoundClock(clock: (nat, nat) -> Instant, round: nat): nat -> Instant {
    (k: nat) => clock(round, k)
  }

  /** The loop's policy for one iteration, numbered `s.rounds`, given the
      containers it collected and what the round extracted from them. */
  function Advance(s: Scroll, elements: seq<Container>, res: RoundResult): Scroll {
    var round := s.rounds;
    if elements == [] then s.(rounds := round + 1, outcome := NoContainers)
    else
      var posts := s.posts + res.newPosts;
      var counts := s.counts + [|res.newPosts|];
      var noNew := if res.newPosts == [] then s.noNew + 1 else 0;
      if res.newPosts == [] && noNew >= NoNewPostsLimit then
        Scroll(posts, res.seen, noNew, round + 1, counts, s.checkpoints, s.saved, NoNewPosts)
      else if (round + 1) % SaveInterval == 0 then
        Scroll(posts, res.seen, noNew, round + 1, counts, s.checkpoints + [round], s.saved + [posts], Running)
      else
        Scroll(posts, res.seen, noNew, round + 1, counts, s.checkpoints, s.saved, Running)
  }

  /** What a round extracts, given its number, its containers and the
      seen-set; the harvester's is `HarvestRound`. */
  type RoundFn = (nat, seq<Container>, set<string>) -> RoundResult

  /** `extract_posts_from_elements` as the loop calls it in round `r`. */
  function HarvestRound(extract: Extractor, existing: Option<set<string>>, clock: (nat, nat) -> Instant): RoundFn {
    (r: nat, elements: seq<Container>, seen: set<string>) => RoundOf(elements, seen, existing, extract, RoundClock(clock, r))
  }

  /** An iteration that found containers but no new record, at the end of
      the streak. */
  lemma AdvanceStops(s: Scroll, elements: seq<Container>, res: RoundResult)
    requires elements != [] && res.newPosts == [] && s.noNew + 1 >= NoNewPostsLimit
    ensures Advance(s, elements, res)
         == Scroll(s.posts, res.seen, s.noNew + 1, s.rounds + 1, s.counts + [0], s.checkpoints, s.saved, NoNewPosts)
  {
    assert s.posts + res.newPosts == s.posts;
  }

  /** An iteration that found containers and goes on. */
  lemma AdvanceGoesOn(s: Scroll, elements: seq<Container>, res: RoundResult)
    requires elements != [] && !(res.newPosts == [] && s.noNew + 1 >= NoNewPostsLimit)
    ensures var posts := s.posts + res.newPosts;
      var save := (s.rounds + 1) % SaveInterval == 0;
      Advance(s, elements, res)
      == Scroll(posts, res.seen, if res.newPosts == [] then s.noNew + 1 else 0, s.rounds + 1, s.counts + [|res.newPosts|],
                if save then s.checkpoints + [s.rounds] else s.checkpoints,
                if save then s.saved + [posts] else s.saved, Running)
  {
  }

  /** One iteration of the loop, given the containers each round collects. */
  function Round(s: Scroll, containers: nat -> seq<Container>, round: RoundFn): Scroll {
    var elements := containers(s.rounds);
    Advance(s, elements, round(s.rounds, elements, s.seen))
  }

  /** The state after at most `n` iterations. */
  function RunFor(n: nat, containers: nat -> seq<Container>, round: RoundFn): Scroll
    decreases n
  {
    if n == 0 then Start
    else
      var s := RunFor(n - 1, containers, round);
      if s.outcome == Running then Round(s, containers, round) else s
  }

  /** The containers collected on each round's page. */
  function PageContainers(feed: nat -> Page): nat -> seq<Container> {
    (r: nat) => CollectedOn(feed(r))
  }

  /** `containers` gives the containers collected on each round's page. */
  ghost predicate CollectsFrom(containers: nat -> seq<Container>, feed: nat -> Page) {
    forall r: nat {:trigger feed(r)} :: containers(r) == CollectedOn(feed(r))
  }

  lemma PageContainersCollect(feed: nat -> Page)
    ensures CollectsFrom(PageContainers(feed), feed)
  {
  }

  /** `round` is `extract_posts_from_elements` with the round's clock. */
  ghost predicate ExtractsBy(round: RoundFn, extract: Extractor, existing: Option<set<string>>, clock: (nat, nat) -> Instant) {
    forall r: nat, elements: seq<Container>, seen: set<string>
      {:trigger RoundOf(elements, seen, existing, extract, RoundClock(clock, r))} ::
      round(r, elements, seen) == RoundOf(elements, seen, existing, extract, RoundClock(clock, r))
  }

  lemma HarvestRoundExtracts(extract: Extractor, existing: Option<set<string>>, clock: (nat, nat) -> Instant)
    ensures ExtractsBy(HarvestRound(extract, existing, clock), extract, existing, clock)
  {
  }

  /** The whole loop, up to the ceiling, for any source of containers and
      any round. */
  function RunWith(containers: nat -> seq<Container>, round: RoundFn, existing: Option<set<string>>): Scroll {
    Ended(RunFor(MaxScrolls(existing), containers, round))
  }

  /** A loop still running at the ceiling ends on the round limit. */
  function Ended(s: Scroll): Scroll {
    if s.outcome == Running then s.(outcome := RoundLimit) else s
  }

  /** `scroll_and_extract_posts`: the whole run on the browser's pages. */
  function HarvestRun(feed: nat -> Page, existing: Option<set<string>>, clock: (nat, nat) -> Instant): Scroll {
    RunWith(PageContainers(feed), HarvestRound(PostDataOf, existing, clock), existing)
  }

  // ---------------------------------------------------------------- the saved archive

  /** The archive file after the saves of a run, each merging the records
      so far into what the file held. */
  function Archive(stored: seq<Post>, saved: seq<seq<Post>>): seq<Post>
    decreases |saved|
  {
    if saved == [] then stored else MergePosts(Archive(stored, saved[..|saved| - 1]), Last(saved))
  }

  /** The archive file after a log of saves, as a function of the log. */
  function ArchiveFrom(stored: seq<Post>): seq<seq<Post>> -> seq<Post> {
    (saved: seq<seq<Post>>) => Archive(stored, saved)
  }

  /** `archiveOf` gives the file after each log of saves. */
  ghost predicate ArchivesBy(archiveOf: seq<seq<Post>> -> seq<Post>, stored: seq<Post>) {
    forall saved: seq<seq<Post>> {:trigger Archive(stored, saved)} :: archiveOf(saved) == Archive(stored, saved)
  }

  lemma ArchiveFromArchives(stored: seq<Post>)
    ensures ArchivesBy(ArchiveFrom(stored), stored)
  {
  }

  /** The ids of all saves. */
  function SavedIds(saved: seq<seq<Post>>): set<string>
    decreases |saved|
  {
    if saved == [] then {} else SavedIds(saved[..|saved| - 1]) + IdsOf(Last(saved))
  }

  /** Saving never drops a record the file held, and the file's ids are its
      first ids and the ids saved. */
  lemma {:induction false} ArchiveSpec(stored: seq<Post>, saved: seq<seq<Post>>)
    ensures forall p :: p in stored ==> p in Archive(stored, saved)
    ensures IdsOf(Archive(stored, saved)) == IdsOf(stored) + SavedIds(saved)
    decreases |saved|
  {
    if saved != [] {
      var before := saved[..|saved| - 1];
      ArchiveSpec(stored, before);
      MergeMembers(Archive(stored, before), Last(saved));
      MergeIds(Archive(stored, before), Last(saved));
    }
  }

  /** After at least one save the file is newest first. */
  lemma ArchiveSorted(stored: seq<Post>, saved: seq<seq<Post>>)
    requires saved != []
    ensures Order.SortedDesc(Archive(stored, saved))
  {
    MergeSpec(Archive(stored, saved[..|saved| - 1]), Last(saved));
  }

  /** Saves of prefixes of `posts` save only ids of `posts`. */
  lemma {:induction false} SavedIdsWithin(saved: seq<seq<Post>>, posts: seq<Post>)
    requires forall i :: 0 <= i < |saved| ==> saved[i] <= posts
    ensures SavedIds(saved) <= IdsOf(posts)
    decreases |saved|
  {
    if saved != [] {
      var before := saved[..|saved| - 1];
      assert forall i :: 0 <= i < |before| ==> before[i] == saved[i];
      SavedIdsWithin(before, posts);
      var last := Last(saved);
      assert last <= posts;
      forall id | id in IdsOf(last) ensures id in IdsOf(posts) {
        var p :| p in last && p.postId == id;
        var k :| 0 <= k < |last| && last[k] == p;
        assert posts[k] == p;
      }
    }
  }

  // ---------------------------------------------------------------- the run's properties

  /** How many rounds at the end of `counts` appended nothing. */
  function TrailingEmpty(counts: seq<nat>): (n: nat)
    ensures n <= |counts|
    decreases |counts|
  {
    if counts == [] || Last(counts) != 0 then 0 else 1 + TrailingEmpty(counts[..|counts| - 1])
  }

  function Sum(counts: seq<nat>): nat
    decreases |counts|
  {
    if counts == [] then 0 else Sum(counts[..|counts| - 1]) + Last(counts)
  }

  /** The trailing empty rounds are all empty, and the round before them is not. */
  lemma {:induction false} TrailingEmptyMeaning(counts: seq<nat>)
    ensures forall i :: |counts| - TrailingEmpty(counts) <= i < |counts| ==> counts[i] == 0
    ensures TrailingEmpty(counts) < |counts| ==> counts[|counts| - TrailingEmpty(counts) - 1] != 0
    decreases |counts|
  {
    if counts != [] && Last(counts) == 0 {
      var init := counts[..|counts| - 1];
      TrailingEmptyMeaning(init);
      assert forall i :: 0 <= i < |init| ==> init[i] == counts[i];
    }
  }

  /** What the loop keeps true of its counters. */
  predicate Shaped(s: Scroll) {
    && s.outcome != RoundLimit
    && (s.outcome != NoNewPosts ==> s.noNew < NoNewPostsLimit)
    && (s.outcome == NoNewPosts ==> s.noNew == NoNewPostsLimit)
    && s.noNew == TrailingEmpty(s.counts)
    && |s.counts| <= s.rounds
    && (s.outcome != NoContainers ==> |s.counts| == s.rounds)
    && |s.posts| == Sum(s.counts)
    && |s.saved| == |s.checkpoints|
    && (forall i :: 0 <= i < |s.saved| ==> s.saved[i] <= s.posts)
  }

  /** One iteration keeps the counters' meaning, and states what it changes. */
  lemma AdvanceShape(s: Scroll, elements: seq<Container>, res: RoundResult)
    requires s.outcome == Running && Shaped(s)
    ensures var t := Advance(s, elements, res);
      && Shaped(t)
      && t.rounds == s.rounds + 1
      && (t.outcome == NoContainers <==> elements == [])
      && (elements == [] ==> t.posts == s.posts && t.seen == s.seen)
      && (elements != [] ==> t.posts == s.posts + res.newPosts && t.seen == res.seen)
      && (if t.outcome == Running && (s.rounds + 1) % SaveInterval == 0
          then t.checkpoints == s.checkpoints + [s.rounds] && t.saved == s.saved + [t.posts]
          else t.checkpoints == s.checkpoints && t.saved == s.saved)
  {
    if elements != [] {
      var counts := s.counts + [|res.newPosts|];
      assert counts[..|counts| - 1] == s.counts;
      var t := Advance(s, elements, res);
      forall i | 0 <= i < |t.saved| ensures t.saved[i] <= t.posts {
        if i < |s.saved| {
          assert s.saved[i] <= s.posts;
        }
      }
    }
  }

  /** Once the loop has stopped, further iterations change nothing. */
  lemma {:induction false} StoppedStays(n: nat, m: nat, containers: nat -> seq<Container>, round: RoundFn)
    requires n <= m && RunFor(n, containers, round).outcome != Running
    ensures RunFor(m, containers, round) == RunFor(n, containers, round)
    decreases m - n
  {
    if n < m {
      StoppedStays(n, m - 1, containers, round);
    }
  }

  /** The state after each number of iterations. */
  function RunStates(containers: nat -> seq<Container>, round: RoundFn): nat -> Scroll {
    (n: nat) => RunFor(n, containers, round)
  }

  /** `run` gives the state after each number of iterations. */
  ghost predicate RunsAs(run: nat -> Scroll, containers: nat -> seq<Container>, round: RoundFn) {
    forall n: nat {:trigger RunFor(n, containers, round)} :: run(n) == RunFor(n, containers, round)
  }

  lemma RunStatesRun(containers: nat -> seq<Container>, round: RoundFn)
    ensures RunsAs(RunStates(containers, round), containers, round)
  {
  }

  lemma RunBegins(run: nat -> Scroll, containers: nat -> seq<Container>, round: RoundFn)
    requires RunsAs(run, containers, round)
    ensures run(0) == Start
  {
    assert run(0) == RunFor(0, containers, round);
  }

  /** One more iteration of a loop that is still running. */
  lemma RunNext(run: nat -> Scroll, n: nat, containers: nat -> seq<Container>, round: RoundFn)
    requires RunsAs(run, containers, round)
    requires run(n).outcome == Running
    ensures run(n + 1) == Advance(run(n), containers(n), round(n, containers(n), run(n).seen))
  {
    assert run(n) == RunFor(n, containers, round);
    assert run(n + 1) == RunFor(n + 1, containers, round);
    RunShape(n, containers, round);
  }

  /** Where the loop ends: a stop before the ceiling, or the ceiling. */
  lemma RunEnds(run: nat -> Scroll, n: nat, containers: nat -> seq<Container>, round: RoundFn, existing: Option<set<string>>)
    requires RunsAs(run, containers, round)
    requires n <= MaxScrolls(existing)
    requires run(n).outcome != Running || n == MaxScrolls(existing)
    ensures Ended(run(n)) == Ended(run(MaxScrolls(existing)))
  {
    assert run(n) == RunFor(n, containers, round);
    assert run(MaxScrolls(existing)) == RunFor(MaxScrolls(existing), containers, round);
    if n < MaxScrolls(existing) {
      StoppedStays(n, MaxScrolls(existing), containers, round);
    }
  }

  /** The round counter and the counters: the loop runs at most `n` rounds,
      a running loop has run exactly `n`, and the counters keep their
      meaning. */
  lemma {:induction false} RunShape(n: nat, containers: nat -> seq<Container>, round: RoundFn)
    ensures var s := RunFor(n, containers, round);
      && Shaped(s)
      && s.rounds <= n
      && (s.outcome == Running ==> s.rounds == n)
    decreases n
  {
    if n > 0 {
      var prev := RunFor(n - 1, containers, round);
      RunShape(n - 1, containers, round);
      if prev.outcome == Running {
        var elements := containers(prev.rounds);
        var res := round(prev.rounds, elements, prev.seen);
        AdvanceShape(prev, elements, res);
        assert RunFor(n, containers, round) == Advance(prev, elements, res);
      }
    }
  }

  /** Every round found containers except a last one that stopped the loop
      for lack of them. */
  lemma {:induction false} RunContainers(n: nat, containers: nat -> seq<Container>, round: RoundFn)
    ensures var s := RunFor(n, containers, round);
      && (s.outcome == NoContainers ==> s.rounds >= 1 && containers(s.rounds - 1) == [])
      && (forall r: nat :: r < s.rounds && (r + 1 < s.rounds || s.outcome != NoContainers) ==>
            containers(r) != [])
    decreases n
  {
    if n > 0 {
      var prev := RunFor(n - 1, containers, round);
      RunContainers(n - 1, containers, round);
      if prev.outcome == Running {
        var elements := containers(prev.rounds);
        var t := Advance(prev, elements, round(prev.rounds, elements, prev.seen));
        assert RunFor(n, containers, round) == t;
        assert t.rounds == prev.rounds + 1;
        assert t.outcome == NoContainers <==> elements == [];
        forall r: nat | r < t.rounds && (r + 1 < t.rounds || t.outcome != NoContainers)
          ensures containers(r) != []
        {
          if r == prev.rounds {
            assert t.outcome != NoContainers;
          }
        }
      }
    }
  }

  /** What the loop keeps true of its records. */
  predicate Deduplicated(s: Scroll, existing: Option<set<string>>) {
    && s.seen == IdsOf(s.posts)
    && DistinctIds(s.posts)
    && (existing.Some? && existing.value != {} ==> IdsOf(s.posts) !! existing.value)
  }

  /** What a round promises about the records it returns (see `RoundSpec`). */
  predicate FreshRound(seen: set<string>, res: RoundResult, existing: Option<set<string>>) {
    && res.seen == seen + IdsOf(res.newPosts)
    && IdsOf(res.newPosts) !! seen
    && DistinctIds(res.newPosts)
    && (existing.Some? && existing.value != {} ==> IdsOf(res.newPosts) !! existing.value)
  }

  /** A round of fresh records keeps the loop's records deduplicated. */
  lemma AdvanceDedup(s: Scroll, elements: seq<Container>, res: RoundResult, existing: Option<set<string>>)
    requires s.outcome == Running && Shaped(s) && Deduplicated(s, existing)
    requires FreshRound(s.seen, res, existing)
    ensures Deduplicated(Advance(s, elements, res), existing)
  {
    AdvanceShape(s, elements, res);
    if elements != [] {
      IdsOfAppend(s.posts, res.newPosts);
      DistinctAppend(s.posts, res.newPosts);
    }
  }

  /** Every round of the harvester returns fresh records. */
  ghost predicate AllRoundsFresh(round: RoundFn, existing: Option<set<string>>) {
    forall r: nat, elements: seq<Container>, seen: set<string> ::
      FreshRound(seen, round(r, elements, seen), existing)
  }

  lemma HarvestRoundFresh(extract: Extractor, existing: Option<set<string>>, clock: (nat, nat) -> Instant)
    ensures AllRoundsFresh(HarvestRound(extract, existing, clock), existing)
  {
    forall r: nat, elements: seq<Container>, seen: set<string>
      ensures FreshRound(seen, HarvestRound(extract, existing, clock)(r, elements, seen), existing)
    {
      RoundSpec(Extractions(elements, extract, RoundClock(clock, r)), seen, existing);
    }
  }

  /** With rounds that return fresh records, the records of a run have
      distinct ids, they are exactly the seen-set, and none of them is in a
      non-empty archive. */
  lemma {:induction false} RunDedup(n: nat, containers: nat -> seq<Container>, round: RoundFn, existing: Option<set<string>>)
    requires AllRoundsFresh(round, existing)
    ensures Deduplicated(RunFor(n, containers, round), existing)
    decreases n
  {
    if n > 0 {
      var prev := RunFor(n - 1, containers, round);
      RunDedup(n - 1, containers, round, existing);
      RunShape(n - 1, containers, round);
      if prev.outcome == Running {
        var elements := containers(prev.rounds);
        var res := round(prev.rounds, elements, prev.seen);
        AdvanceDedup(prev, elements, res, existing);
        assert RunFor(n, containers, round) == Advance(prev, elements, res);
      }
    }
  }

  /** The rounds that saved: those whose number plus one is a multiple of
      the interval, except one that stopped the loop. */
  ghost predicate SavedOnSchedule(s: Scroll) {
    forall r: nat :: r in s.checkpoints <==>
      && r < s.rounds && (r + 1) % SaveInterval == 0
      && (r + 1 < s.rounds || s.outcome == Running)
  }

  lemma AdvanceCheckpoints(s: Scroll, elements: seq<Container>, res: RoundResult)
    requires s.outcome == Running && Shaped(s) && SavedOnSchedule(s)
    ensures SavedOnSchedule(Advance(s, elements, res))
  {
    AdvanceShape(s, elements, res);
    var t := Advance(s, elements, res);
    forall r: nat ensures r in t.checkpoints <==>
      && r < t.rounds && (r + 1) % SaveInterval == 0
      && (r + 1 < t.rounds || t.outcome == Running)
    {
      assert r in s.checkpoints <==> r < s.rounds && (r + 1) % SaveInterval == 0;
    }
  }

  /** A round saves exactly when its number plus one is a multiple of the
      interval and it did not stop the loop. */
  lemma {:induction false} RunCheckpoints(n: nat, containers: nat -> seq<Container>, round: RoundFn)
    ensures SavedOnSchedule(RunFor(n, containers, round))
    decreases n
  {
    if n > 0 {
      var prev := RunFor(n - 1, containers, round);
      RunCheckpoints(n - 1, containers, round);
      RunShape(n - 1, containers, round);
      if prev.outcome == Running {
        var elements := containers(prev.rounds);
        var res := round(prev.rounds, elements, prev.seen);
        AdvanceCheckpoints(prev, elements, res);
        assert RunFor(n, containers, round) == Advance(prev, elements, res);
      }
    }
  }

  /** The run as a whole: it ends, within the ceiling, for one of the three
      reasons; it reaches the ceiling only when it stops for that reason; and
      every round found containers except a last one that stopped the loop
      for lack of them. */
  lemma HarvestEnds(containers: nat -> seq<Container>, round: RoundFn, existing: Option<set<string>>)
    ensures var h := RunWith(containers, round, existing);
      && h.outcome != Running
      && h.rounds <= MaxScrolls(existing)
      && (h.outcome == RoundLimit ==> h.rounds == MaxScrolls(existing))
      && (h.outcome == NoContainers ==> h.rounds >= 1 && containers(h.rounds - 1) == [])
      && (forall r: nat :: r < h.rounds && (r + 1 < h.rounds || h.outcome != NoContainers) ==>
            containers(r) != [])
  {
    RunShape(MaxScrolls(existing), containers, round);
    RunContainers(MaxScrolls(existing), containers, round);
  }

  /** The empty-round streak: a run stops for want of new records exactly
      after twenty consecutive rounds with containers but no new record, and
      any other run ends with a shorter streak; the records are the rounds'
      contributions. */
  lemma HarvestStreak(containers: nat -> seq<Container>, round: RoundFn, existing: Option<set<string>>)
    ensures var h := RunWith(containers, round, existing);
      && (h.outcome == NoNewPosts ==>
            && |h.counts| >= NoNewPostsLimit
            && forall i :: |h.counts| - NoNewPostsLimit <= i < |h.counts| ==> h.counts[i] == 0)
      && (h.outcome != NoNewPosts ==> TrailingEmpty(h.counts) < NoNewPostsLimit)
      && |h.posts| == Sum(h.counts)
  {
    var s := RunFor(MaxScrolls(existing), containers, round);
    RunShape(MaxScrolls(existing), containers, round);
    TrailingEmptyMeaning(s.counts);
  }

  /** The records of the whole run and what it left in the archive file:
      with rounds that return fresh records (as `HarvestRoundFresh` shows the
      harvester's do), the records have distinct ids and none was archived
      before; the file keeps every record it held and gains only ids of this
      run; and the rounds that saved are the scheduled ones. */
  lemma HarvestRecords(containers: nat -> seq<Container>, round: RoundFn, existing: Option<set<string>>, stored: seq<Post>)
    requires AllRoundsFresh(round, existing)
    ensures var h := RunWith(containers, round, existing);
      && DistinctIds(h.posts)
      && h.seen == IdsOf(h.posts)
      && (existing.Some? && existing.value != {} ==> IdsOf(h.posts) !! existing.value)
      && (forall p :: p in stored ==> p in Archive(stored, h.saved))
      && IdsOf(Archive(stored, h.saved)) <= IdsOf(stored) + IdsOf(h.posts)
      && (forall r: nat :: r in h.checkpoints <==>
            && r < h.rounds && (r + 1) % SaveInterval == 0
            && (r + 1 < h.rounds || h.outcome == RoundLimit))
  {
    var n := MaxScrolls(existing);
    var s := RunFor(n, containers, round);
    RunDedup(n, containers, round, existing);
    RunShape(n, containers, round);
    RunCheckpoints(n, containers, round);
    ArchiveSpec(stored, s.saved);
    SavedIdsWithin(s.saved, s.posts);
  }

  /** The harvester's own run, with `extract_post_data` as the extractor:
      its records have distinct ids, none of them was archived before in
      smart mode, and the file gains nothing but this run's ids. */
  lemma HarvestRunRecords(feed: nat -> Page, existing: Option<set<string>>, clock: (nat, nat) -> Instant, stored: seq<Post>)
    ensures var h := HarvestRun(feed, existing, clock);
      && DistinctIds(h.posts)
      && h.seen == IdsOf(h.posts)
      && (existing.Some? && existing.value != {} ==> IdsOf(h.posts) !! existing.value)
      && (forall p :: p in stored ==> p in Archive(stored, h.saved))
      && IdsOf(Archive(stored, h.saved)) <= IdsOf(stored) + IdsOf(h.posts)
  {
    HarvestRoundFresh(PostDataOf, existing, clock);
    HarvestRecords(PageContainers(feed), HarvestRound(PostDataOf, existing, clock), existing, stored);
  }

  /** `scroll_and_extract_posts` as the source runs it; `archive` is the
      file's content after the run's saves. */
  method ScrollAndExtractPosts(feed: nat -> Page, extract: Extractor, existing: Option<set<string>>, clock: (nat, nat) -> Instant, stored: seq<Post>)
    returns (result: Scroll, archive: seq<Post>)
    ensures result == RunWith(PageContainers(feed), HarvestRound(extract, existing, clock), existing)
    ensures archive == Archive(stored, result.saved)
  {
    PageContainersCollect(feed);
    HarvestRoundExtracts(extract, existing, clock);
    ArchiveFromArchives(stored);
    RunStatesRun(PageContainers(feed), HarvestRound(extract, existing, clock));
    result, archive := ScrollLoop(feed, extract, existing, clock, stored,
                                  PageContainers(feed), HarvestRound(extract, existing, clock), ArchiveFrom(stored),
                                  RunStates(PageContainers(feed), HarvestRound(extract, existing, clock)));
    assert RunStates(PageContainers(feed), HarvestRound(extract, existing, clock))(MaxScrolls(existing))
        == RunFor(MaxScrolls(existing), PageContainers(feed), HarvestRound(extract, existing, clock));
    assert archive == ArchiveFrom(stored)(result.saved) == Archive(stored, result.saved);
  }

  /** `collect_post_elements_on_page` on the page of round `r`. */
  method CollectRound(feed: nat -> Page, r: nat, ghost containers: nat -> seq<Container>) returns (postElements: seq<Container>)
    requires CollectsFrom(containers, feed)
    ensures postElements == containers(r)
  {
    postElements := CollectPostElementsOnPage(feed(r));
  }

  /** `extract_posts_from_elements` as round `r` calls it. */
  method ExtractRound(postElements: seq<Container>, seen: SeenIds, existing: Option<set<string>>, extract: Extractor, clock: (nat, nat) -> Instant,
                      r: nat, ghost round: RoundFn)
    returns (newPosts: seq<Post>, existingFound: nat)
    requires ExtractsBy(round, extract, existing, clock)
    modifies seen
    ensures var res := round(r, postElements, old(seen.ids));
      newPosts == res.newPosts && existingFound == res.existingFound && seen.ids == res.seen
  {
    newPosts, existingFound := ExtractPostsFromElements(postElements, seen, existing, extract, RoundClock(clock, r));
  }

  /** A mid-run save (`save_posts_to_json`): the records so far merged into the file. */
  method SaveProgress(archive: seq<Post>, posts: seq<Post>, ghost stored: seq<Post>, ghost saved: seq<seq<Post>>,
                      ghost archiveOf: seq<seq<Post>> -> seq<Post>)
    returns (next: seq<Post>)
    requires ArchivesBy(archiveOf, stored)
    requires archive == archiveOf(saved)
    ensures next == archiveOf(saved + [posts])
  {
    assert archive == Archive(stored, saved);
    next := MergePosts(archive, posts);
    assert (saved + [posts])[..|saved|] == saved;
    assert next == Archive(stored, saved + [posts]);
  }

  /** The loop of `scroll_and_extract_posts`, for the containers, rounds and
      saves that collection, extraction and merging compute. */
  method ScrollLoop(feed: nat -> Page, extract: Extractor, existing: Option<set<string>>, clock: (nat, nat) -> Instant, stored: seq<Post>,
                    ghost containers: nat -> seq<Container>, ghost round: RoundFn, ghost archiveOf: seq<seq<Post>> -> seq<Post>,
                    ghost run: nat -> Scroll)
    returns (result: Scroll, archive: seq<Post>)
    requires CollectsFrom(containers, feed)
    requires ExtractsBy(round, extract, existing, clock)
    requires ArchivesBy(archiveOf, stored) && archiveOf([]) == stored
    requires RunsAs(run, containers, round)
    ensures result == Ended(run(MaxScrolls(existing)))
    ensures archive == archiveOf(result.saved)
  {
    var posts: seq<Post> := [];
    var seen := new SeenIds();
    var maxScrolls := if existing.Some? && existing.value != {} then SmartModeMax else FullModeMax;
    assert maxScrolls == MaxScrolls(existing);
    var noNew := 0;
    var counts: seq<nat> := [];
    var checkpoints: seq<nat> := [];
    var saved: seq<seq<Post>> := [];
    var scrollCount := 0;
    archive := stored;
    RunBegins(run, containers, round);
    while scrollCount < maxScrolls
      invariant 0 <= scrollCount <= maxScrolls
      invariant run(scrollCount) == Scroll(posts, seen.ids, noNew, scrollCount, counts, checkpoints, saved, Running)
      invariant archive == archiveOf(saved)
    {
      ghost var before := Scroll(posts, seen.ids, noNew, scrollCount, counts, checkpoints, saved, Running);
      var postElements := CollectRound(feed, scrollCount, containers);
      ghost var res := round(scrollCount, postElements, before.seen);
      RunNext(run, scrollCount, containers, round);
      if postElements == [] {
        scrollCount := scrollCount + 1;
        result := Scroll(posts, seen.ids, noNew, scrollCount, counts, checkpoints, saved, NoContainers);
        RunEnds(run, scrollCount, containers, round, existing);
        return;
      }
      var batch, found := ExtractRound(postElements, seen, existing, extract, clock, scrollCount, round);
      posts := posts + batch;
      counts := counts + [|batch|];
      if |batch| == 0 {
        noNew := noNew + 1;
        if noNew >= NoNewPostsLimit {
          AdvanceStops(before, postElements, res);
          scrollCount := scrollCount + 1;
          result := Scroll(posts, seen.ids, noNew, scrollCount, counts, checkpoints, saved, NoNewPosts);
          RunEnds(run, scrollCount, containers, round, existing);
          return;
        }
      } else {
        noNew := 0;
      }
      if (scrollCount + 1) % SaveInterval == 0 {
        archive := SaveProgress(archive, posts, stored, saved, archiveOf);
        checkpoints := checkpoints + [scrollCount];
        saved := saved + [posts];
      }
      AdvanceGoesOn(before, postElements, res);
      scrollCount := scrollCount + 1;
    }
    RunEnds(run, scrollCount, containers, round, existing);
    result := Scroll(posts, seen.ids, noNew, scrollCount, counts, checkpoints, saved, RoundLimit);
  }
}
