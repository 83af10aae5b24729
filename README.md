# Thread Tidy core in Dafny

Thread Tidy keeps an archive of the posts a user saved on Threads. This project models its two
core pieces of logic and proves properties of the model:

- **The harvester** (`scripts/fetch_saved_posts.py`). It walks the saved-posts page round by
  round. In each round it collects post containers by a cascade of CSS selectors. It extracts a
  record from each container (id, URL, author, content, media, timestamp), drops ids it has
  already seen, and in smart mode counts and skips ids the archive already holds. It stops on:
  - a page with no containers;
  - 20 rounds in a row with no new record;
  - the round ceiling: 50 rounds in smart mode, 100 otherwise.

  Every 10th round it merges the records so far into the archive file. `merge_posts` drops new
  records whose id is already archived and sorts newest first by `saved_at`.
- **The classifier** (`scripts/classify.py`, `scripts/classification_prompt.py`). It selects
  the records without categories. It sends them to a language model in batches of 10, each as a
  prompt made of fixed rules and the batch's ids and truncated contents. It strips Markdown
  fences from the reply and writes each returned classification back into the archive by
  `post_id`, the last entry for an id winning. It counts the batches that succeeded and failed,
  and tallies the categories of the classified records.

Modules, one file each:

| module | file | models |
|---|---|---|
| `Wrappers` | `wrappers.dfy` | `Option` |
| `Text` | `text.dfy` | Python's `in`, `split`, `"".join`, `replace(p, "")`, `strip`/`lstrip`/`rstrip`, `lower` |
| `Dom` | `dom.dfy` | a container's and a page's answers to `query_selector`, `query_selector_all`, `get_attribute`, `inner_text` |
| `Posts` | `posts.dfy` | the archived record |
| `Selectors` | `selectors.dfy` | the selector lists and `find_element_by_selectors` |
| `Extract` | `extract.dfy` | the field extractors and `extract_post_data` |
| `Order` | `order.dfy` | Python's stable `sort(key=saved_at, reverse=True)` on code-point order |
| `Merge` | `merge.dfy` | `merge_posts` |
| `Harvest` | `harvest.dfy` | container collection, a round's dedup, the scroll loop, the mid-run saves |
| `Prompt` | `prompt.dfy` | `classification_prompt.py` |
| `Classify` | `classify.dfy` | `classify.py`'s selection, batching, write-back and statistics |

How the model is written:

- Pure code becomes functions and lemmas. The selector cascades and `merge_posts` are examples.
- Code that accumulates in loops becomes methods with `while`/`for` loops. Each method is proved
  equal to a specification function, and the properties are proved about that function. This
  covers the content, media and container collection, `extract_posts_from_elements`, the scroll
  loop, `prepare_posts_for_classification`, `process_batches` and the statistics.
- `seen_post_ids` is updated in place by `extract_posts_from_elements`. It is the class
  `Harvest.SeenIds`, whose `Add` the loop calls.
- `all_posts` is updated in place by `process_batches`. It is an `array<Post>`.
- Each batch's records are the same objects as records of `all_posts`. Updating `all_posts`
  therefore also updates them, but nothing reads a record's labels after that: later batches
  are disjoint slices, and a batch is read only for `post_id` and `content`. That aliasing is
  therefore unobservable, and batches are values.
- Outside inputs become parameters:
  - the browser: one `Page` snapshot per round;
  - the clock: an `Instant` per container and round;
  - the language-model service: `Completion`, indexed by batch number;
  - `json.dumps`: `Serializer`;
  - `json.loads`: `Decoder`.

Python behaviour the model keeps:

- `split` cuts at non-overlapping separators, left to right, and the post id is the last piece.
- `max(texts, key=len)` returns the first of the longest texts.
- `sort(reverse=True)` is stable.
- In a dict comprehension the last entry for a key wins.
- A dict keeps its keys in insertion order.
- `result[3:-3]` of a string shorter than 6 is `""`.
- `strip` removes Python's whitespace set.

The model follows the code where the code surprises:

- **Existing hits are not marked as seen.** An id the archive already holds is counted as
  existing but not added to `seen_post_ids`, so the same id seen again in the run is counted
  again (`Harvest.ExistingHitNotSeen`). fetch_saved_posts.py:343-350 adds only accepted records
  to the set. The documentation describes existing hits as recorded too; the model follows the
  code.
- **The record check always passes.** The "basic validation" at fetch_saved_posts.py:348
  always passes, because every extracted record has a non-empty id (`post_id or unknown_...`).
  So every container yields a new record, an existing hit or a failure
  (`Harvest.ValidationAlwaysPasses`).
- **Already-seen ids are reported as failures.** The "failed to extract" report also fires for a
  record whose id was already seen this run (fetch_saved_posts.py:339, 351-352), so duplicates
  are counted with the failures (`Harvest.SeenIdReportedAsFailure`).
- **Container collection stops at the first selector with matches.** It stops there even when
  none of those matches looks like a post, and then returns nothing (fetch_saved_posts.py:307-325,
  `Harvest.CollectionStopsAtFirstMatch`). That ends the scroll loop.
- **A stopping round does not save.** A round that ends the loop on the empty streak breaks
  before the save, even on a 10th round (fetch_saved_posts.py:397-412, `Harvest.HarvestRecords`).
- **`merge_posts` keeps duplicates inside the new records.** It removes only ids already
  archived. Two new records with one id are both kept (fetch_saved_posts.py:437-440,
  `Merge.BatchDuplicatesKept`). The harvester's own records never repeat an id
  (`Harvest.HarvestRunRecords`).

## Model

| member | source | states |
|---|---|---|
| `Text.Find` | scripts/fetch_saved_posts.py:179 | the first index where the pattern occurs, and `None` exactly when it does not occur (`in`) |
| `Text.Split` | scripts/fetch_saved_posts.py:180 | `split` always yields at least one piece |
| `Text.SplitJoin` | scripts/fetch_saved_posts.py:180 | joining the pieces of `split` with the separator gives back the string |
| `Text.SplitPiecesAreFree` | scripts/fetch_saved_posts.py:180 | no piece of `split` contains the separator |
| `Text.SplitSingle` | scripts/fetch_saved_posts.py:180 | `split` yields more than one piece exactly when the separator occurs, and the string alone otherwise |
| `Text.RemoveAbsent` | scripts/classify.py:173 | `replace(p, "")` of a string without `p` is the string |
| `Text.LStripSpec` | scripts/classify.py:169 | `lstrip` removes exactly the leading whitespace: a suffix, only spaces cut, the first kept character not a space |
| `Text.RStripSpec` | scripts/classification_prompt.py:66 | `rstrip` removes exactly the trailing whitespace: a prefix, only spaces cut, the last kept character not a space |
| `Text.StripSpec` | scripts/fetch_saved_posts.py:163 | `strip` keeps one infix, cuts only whitespace on either side, and the result neither starts nor ends with whitespace |
| `Text.StripTrimmed` | scripts/classify.py:173 | `strip` leaves a string that starts and ends with non-space unchanged |
| `Text.Lower` | scripts/fetch_saved_posts.py:244 | `lower()` keeps the length |
| `Dom.QuerySelector` | scripts/fetch_saved_posts.py:156 | `query_selector` answers `None` exactly when nothing matches, and otherwise the first match of `query_selector_all` |
| `Dom.AttributeText` | scripts/fetch_saved_posts.py:159-160 | an attribute reads as truthy exactly when it is present and non-empty |
| `Selectors.FirstValue` | scripts/fetch_saved_posts.py:153-166 | the cascade is empty exactly when every selector reads empty; otherwise it is the reading of the first selector that reads non-empty |
| `Extract.IdFromUrlShape` | scripts/fetch_saved_posts.py:179-180 | the id is the text after the last `/post/` up to the first `?`, and contains neither |
| `Extract.Absolute` | scripts/fetch_saved_posts.py:183-184 | a URL starting with `/` gains the site prefix and keeps the rest; any other is unchanged |
| `Extract.PostUrlAndId` | scripts/fetch_saved_posts.py:169-186 | fails exactly when the matched link has no `href`; without a link the URL is empty and the id `unknown_<time>`; otherwise the URL is made absolute and the id is the URL's id or `unknown_<time>`, never empty |
| `Extract.DropHandlePrefix` | scripts/fetch_saved_posts.py:200-205 | removes a leading `/@`, else a leading `@`, else nothing |
| `Extract.UsernameSpec` | scripts/fetch_saved_posts.py:194-206 | the username is the first non-empty `href`-or-text of the username selectors with its handle prefix removed, and empty when there is none |
| `Extract.AuthorSpec` | scripts/fetch_saved_posts.py:208-216 | the display name is the found name unless it is empty or starts with `@`, in which case it falls back to the username |
| `Extract.QualifyingTexts` | scripts/fetch_saved_posts.py:225-228 | every kept text is non-empty, longer than 10 and not starting with `@`, and at most one is kept per element |
| `Extract.CandidatesSpec` | scripts/fetch_saved_posts.py:223-230 | the candidates are those of the first content selector that yields any, and none exactly when no selector yields any |
| `Extract.LongestIndex` | scripts/fetch_saved_posts.py:233 | `max(key=len)`: an index of a longest text, with every earlier text strictly shorter |
| `Extract.ContentSpec` | scripts/fetch_saved_posts.py:219-233 | the content is empty exactly when no selector yields a qualifying text, and otherwise qualifies |
| `Extract.ContentFirstLongest` | scripts/fetch_saved_posts.py:229-233 | the content is the first longest qualifying text of the first yielding selector |
| `Extract.ExtractPostContent` | scripts/fetch_saved_posts.py:219-233 | the selector loop with its early break computes `ContentOf` |
| `Extract.CollectQualifying` | scripts/fetch_saved_posts.py:225-228 | the element loop computes `QualifyingTexts` |
| `Extract.ImageEntries` | scripts/fetch_saved_posts.py:241-245 | every image entry is an `http` URL free of the excluded keywords, at most one per `img` |
| `Extract.VideoEntries` | scripts/fetch_saved_posts.py:248-252 | every video entry is an `http` `src` or `poster`, at most one per `video` |
| `Extract.SourceEntries` | scripts/fetch_saved_posts.py:255-259 | every source entry is a video with an `http` URL, at most one per `video source` |
| `Extract.MediaSpec` | scripts/fetch_saved_posts.py:236-261 | all media URLs are `http`, no image is decorative, images come before videos, and there is at most one entry per element |
| `Extract.ExtractMediaInfo` | scripts/fetch_saved_posts.py:236-261 | the three loops compute `MediaOf` |
| `Extract.CollectImages` | scripts/fetch_saved_posts.py:241-245 | the image loop computes `ImageEntries` |
| `Extract.CollectVideos` | scripts/fetch_saved_posts.py:248-252 | the video loop computes `VideoEntries` |
| `Extract.CollectSources` | scripts/fetch_saved_posts.py:255-259 | the source loop computes `SourceEntries` |
| `Extract.TimestampOf` | scripts/fetch_saved_posts.py:264-272 | the timestamp is empty exactly when no timestamp selector yields a `datetime` attribute |
| `Extract.PostDataOf` | scripts/fetch_saved_posts.py:275-300 | `None` exactly when the matched link lacks `href`; otherwise a record with a non-empty id, `saved_at` the current UTC time and empty categories and keywords |
| `Extract.NoContentGivesEmpty` | scripts/fetch_saved_posts.py:280-294 | a container without content elements still yields a record, with empty content |
| `Extract.ExtractPostData` | scripts/fetch_saved_posts.py:275-300 | the extraction steps compute `PostDataOf` |
| `Order.LexLeqRefl` | scripts/fetch_saved_posts.py:447 | string order is reflexive |
| `Order.LexLeqTotal` | scripts/fetch_saved_posts.py:447 | string order is total |
| `Order.LexLeqTrans` | scripts/fetch_saved_posts.py:447 | string order is transitive |
| `Order.LexLeqAntisym` | scripts/fetch_saved_posts.py:447 | string order is antisymmetric |
| `Order.SortPermutes` | scripts/fetch_saved_posts.py:447 | the sort is a permutation |
| `Order.SortSorted` | scripts/fetch_saved_posts.py:447 | the sort is newest first by `saved_at` |
| `Order.SortStable` | scripts/fetch_saved_posts.py:447 | records with equal `saved_at` keep their relative order |
| `Order.SortOfSorted` | scripts/fetch_saved_posts.py:447 | sorting a list already newest first leaves it unchanged |
| `Order.SortIds` | scripts/fetch_saved_posts.py:447 | sorting keeps the set of ids and whether ids are distinct |
| `Merge.UniqueNew` | scripts/fetch_saved_posts.py:440 | the kept new records are exactly the new records whose id is not archived |
| `Merge.MergeSpec` | scripts/fetch_saved_posts.py:435-457 | the merge is a permutation of the archive followed by the kept new records, sorted newest first |
| `Merge.MergeMembers` | scripts/fetch_saved_posts.py:437-443 | a record is in the merge exactly when it is archived or is new with an id not archived |
| `Merge.MergeIds` | scripts/fetch_saved_posts.py:437-447 | the merge's ids are the archived ids and the new ids |
| `Merge.MergeDistinct` | scripts/fetch_saved_posts.py:437-443 | an archive and new records without repeated ids merge without repeated ids |
| `Merge.UniqueNewDistinct` | scripts/fetch_saved_posts.py:440 | filtering keeps new records free of repeated ids |
| `Merge.NothingNew` | scripts/fetch_saved_posts.py:440 | new records whose ids are all archived are all dropped |
| `Merge.MergeNothing` | scripts/fetch_saved_posts.py:443-447 | merging nothing into a newest-first archive gives it back |
| `Merge.MergeIdempotent` | scripts/fetch_saved_posts.py:435-457 | merging the same records twice equals merging them once |
| `Merge.BatchDuplicatesKept` | scripts/fetch_saved_posts.py:437-440 | a record repeated in the new records and not archived appears twice in the merge |
| `Harvest.KeepPostLikeMembers` | scripts/fetch_saved_posts.py:310-318 | kept containers are exactly those with a post link or a content span |
| `Harvest.KeepNone` | scripts/fetch_saved_posts.py:310-323 | when no container looks like a post, nothing is kept |
| `Harvest.CollectedFromSpec` | scripts/fetch_saved_posts.py:306-325 | every collected container looks like a post; with no matches nothing is collected; otherwise the filtered matches of the first matching selector are collected |
| `Harvest.CollectedSpec` | scripts/fetch_saved_posts.py:303-327 | the same for the post selectors: the collected containers are exactly the post-like matches of the first selector with matches |
| `Harvest.CollectionStopsAtFirstMatch` | scripts/fetch_saved_posts.py:307-325 | when the first selector matches only non-posts, nothing is collected although later selectors might match |
| `Harvest.CollectPostElementsOnPage` | scripts/fetch_saved_posts.py:303-327 | the selector loop with its break computes `CollectedOn` |
| `Harvest.FilterPostLike` | scripts/fetch_saved_posts.py:310-323 | the filter loop computes `KeepPostLike` |
| `Harvest.SeenIds.constructor` | scripts/fetch_saved_posts.py:360 | the run starts with no seen ids |
| `Harvest.SeenIds.Add` | scripts/fetch_saved_posts.py:350 | adding an id puts it in the set and changes nothing else |
| `Harvest.ExtractionsAt` | scripts/fetch_saved_posts.py:336-337 | the k-th extraction is that of the k-th container at the k-th instant |
| `Harvest.PostDataOfGivesIds` | scripts/fetch_saved_posts.py:186 | every record the extractor yields has a non-empty id |
| `Harvest.RoundSpec` | scripts/fetch_saved_posts.py:336-354 | after a round, the new records have distinct ids not seen before and, in smart mode, not archived; the seen set grows by exactly their ids; without an archive nothing is counted as existing; every new record was extracted |
| `Harvest.RoundAccounts` | scripts/fetch_saved_posts.py:336-354 | with extracted ids never empty, every container is a new record, an existing hit or a failure report |
| `Harvest.ValidationAlwaysPasses` | scripts/fetch_saved_posts.py:348 | with an extractor whose ids are never empty, new records, existing hits and failures add up to the number of containers |
| `Harvest.ExistingHitNotSeen` | scripts/fetch_saved_posts.py:343-350 | an archived id met twice is counted as existing twice and never enters the seen set |
| `Harvest.SeenIdReportedAsFailure` | scripts/fetch_saved_posts.py:339-352 | a repeated id in one round is kept once and reported once as a failure |
| `Harvest.Visit` | scripts/fetch_saved_posts.py:337-352 | one pass over a container updates the records, the existing count and the seen set as the round step says |
| `Harvest.ExtractPostsFromElements` | scripts/fetch_saved_posts.py:330-354 | returns the round's new records and existing count, and leaves the seen set as the round specifies |
| `Harvest.MaxScrolls` | scripts/fetch_saved_posts.py:368-373 | the ceiling is 50 or 100 |
| `Harvest.AdvanceStops` | scripts/fetch_saved_posts.py:396-401 | a round that brings a 20th empty round in a row stops the loop without a save |
| `Harvest.AdvanceGoesOn` | scripts/fetch_saved_posts.py:390-412 | any other round with containers appends its records, updates the streak and saves on every 10th round |
| `Harvest.PageContainersCollect` | scripts/fetch_saved_posts.py:379 | each round's containers are those collected on that round's page |
| `Harvest.HarvestRoundExtracts` | scripts/fetch_saved_posts.py:386-388 | each round extracts from its containers with that round's clock |
| `Harvest.ArchiveFromArchives` | scripts/fetch_saved_posts.py:410-412 | the archive file is the stored records merged with each save in turn |
| `Harvest.ArchiveSpec` | scripts/fetch_saved_posts.py:410-412 | the saves keep every stored record, and the file's ids are the stored ids and the saved ids |
| `Harvest.ArchiveSorted` | scripts/fetch_saved_posts.py:410-412 | after a save the file is newest first |
| `Harvest.SavedIdsWithin` | scripts/fetch_saved_posts.py:391-412 | each save holds only records of the run so far |
| `Harvest.TrailingEmptyMeaning` | scripts/fetch_saved_posts.py:397-403 | the streak counts exactly the trailing rounds without new records |
| `Harvest.AdvanceShape` | scripts/fetch_saved_posts.py:377-412 | one round keeps the loop's bookkeeping consistent: streak, round count, records and saves; it stops on an empty page and saves exactly on continuing 10th rounds |
| `Harvest.StoppedStays` | scripts/fetch_saved_posts.py:381-401 | once the loop has stopped, later rounds change nothing |
| `Harvest.RunStatesRun` | scripts/fetch_saved_posts.py:377 | the loop state after each number of rounds is the run function |
| `Harvest.RunBegins` | scripts/fetch_saved_posts.py:359-375 | the loop starts with no records, no seen ids, no streak and no saves |
| `Harvest.RunNext` | scripts/fetch_saved_posts.py:377-412 | a running loop's next state is one more round |
| `Harvest.RunEnds` | scripts/fetch_saved_posts.py:377-383 | a loop that stopped early ends in the same state as at the ceiling |
| `Harvest.RunShape` | scripts/fetch_saved_posts.py:377-412 | after n rounds the bookkeeping is consistent and at most n rounds ran, exactly n while running |
| `Harvest.RunContainers` | scripts/fetch_saved_posts.py:381-383 | the loop stops on an empty page only after seeing one, and every earlier round had containers |
| `Harvest.AdvanceDedup` | scripts/fetch_saved_posts.py:390-391 | a round of fresh records keeps the run's records distinct, its seen set equal to their ids and, in smart mode, disjoint from the archive |
| `Harvest.HarvestRoundFresh` | scripts/fetch_saved_posts.py:386-388 | every harvester round yields fresh records |
| `Harvest.RunDedup` | scripts/fetch_saved_posts.py:359-414 | at every round the run's records have distinct ids equal to the seen set and, in smart mode, none archived |
| `Harvest.AdvanceCheckpoints` | scripts/fetch_saved_posts.py:410-412 | one round keeps the saves on schedule |
| `Harvest.RunCheckpoints` | scripts/fetch_saved_posts.py:410-412 | a save happens after round r exactly when r+1 is a multiple of 10 and the loop went on past it |
| `Harvest.HarvestEnds` | scripts/fetch_saved_posts.py:377-383 | the loop ends within the ceiling, at it exactly on the round limit, on an empty page only after one, with containers in every earlier round |
| `Harvest.HarvestStreak` | scripts/fetch_saved_posts.py:396-403 | the empty-streak stop follows 20 empty rounds, any other end leaves a shorter streak, and the record count is the sum of the rounds' counts |
| `Harvest.HarvestRecords` | scripts/fetch_saved_posts.py:357-414 | the run's records are distinct and, in smart mode, not archived; the file keeps its records and gains only this run's ids; it saves exactly after the 10th, 20th, ... rounds that did not stop |
| `Harvest.HarvestRunRecords` | scripts/fetch_saved_posts.py:357-414 | the same for the harvester's own extractor and pages |
| `Harvest.CollectRound` | scripts/fetch_saved_posts.py:379 | a round collects its page's containers |
| `Harvest.ExtractRound` | scripts/fetch_saved_posts.py:386-388 | a round's extraction returns what the round function specifies and updates the seen set accordingly |
| `Harvest.SaveProgress` | scripts/fetch_saved_posts.py:410-412 | a mid-run save merges the records so far into the file |
| `Harvest.ScrollLoop` | scripts/fetch_saved_posts.py:377-412 | the `for` loop with its breaks ends in the run's final state, and the file holds the run's saves |
| `Harvest.ScrollAndExtractPosts` | scripts/fetch_saved_posts.py:357-414 | the whole harvest equals the run to the ceiling on the collected pages, and the file is the stored records merged with each save |
| `Prompt.RulesThenSplit` | scripts/classification_prompt.py:13-43 | the prompt template is the rules followed by the rest |
| `Prompt.TruncatedSpec` | scripts/classification_prompt.py:63-66 | content of at most 500 characters is kept; longer content keeps a prefix of its first 500 characters with only trailing spaces cut, then `...` |
| `Prompt.PreparedSpec` | scripts/classification_prompt.py:45-69 | each prepared entry is the record's id with its truncated content, in order |
| `Prompt.PreparePostsForClassification` | scripts/classification_prompt.py:45-69 | the loop computes `Prepared` |
| `Prompt.PromptShape` | scripts/classification_prompt.py:28-43 | the prompt is the rules, the header and the serialised batch, and nothing else |
| `Prompt.PromptDeterminesBatch` | scripts/classification_prompt.py:38-43 | two prompts are equal exactly when their batches serialise alike |
| `Classify.UnclassifiedSpec` | scripts/classify.py:67-70 | the selection holds exactly the records without categories; the others are exactly the classified ones; together they number all records |
| `Classify.UnclassifiedAppend` | scripts/classify.py:67-70 | the selection distributes over concatenation |
| `Classify.GetUnclassifiedPosts` | scripts/classify.py:65-78 | `None` exactly when every record is classified; otherwise the non-empty selection |
| `Classify.BatchesSpec` | scripts/classify.py:88-97 | the batches concatenate to the records, number `total_batches`, are of size 1 to 10, and all but the last are full |
| `Classify.BatchCount` | scripts/classify.py:89 | there are `total_batches` batches |
| `Classify.BatchAt` | scripts/classify.py:95-97 | batch k is the slice from 10k up to 10k+10 or the end |
| `Classify.BatchExists` | scripts/classify.py:89-95 | the loop index 10k is in range exactly when k is a batch number |
| `Classify.DropFences` | scripts/classify.py:175 | `[3:-3]` drops three characters at each end, and yields `""` for strings shorter than 6 |
| `Classify.UnfencedReplyKept` | scripts/classify.py:172-175 | a reply without a fence is not changed |
| `Classify.PlainFenceRemoved` | scripts/classify.py:174-175 | a plain fenced reply becomes its stripped body |
| `Classify.JsonFenceRemoved` | scripts/classify.py:172-173 | a `json`-fenced reply whose body has no backtick becomes its stripped body |
| `Classify.FailedRequestGivesNothing` | scripts/classify.py:158-182 | a failed request gives no classifications |
| `Classify.BatchDecodesItsReply` | scripts/classify.py:169-178 | any classifications come from decoding the cleaned reply to the batch's prompt |
| `Classify.ClassifyBatch` | scripts/classify.py:151-182 | preparing, prompting, cleaning and decoding compute the batch's classifications, with every failure giving none |
| `Classify.IndexKeys` | scripts/classify.py:105 | the dict holds exactly the returned ids |
| `Classify.IndexLastWins` | scripts/classify.py:105 | an id maps to its last entry |
| `Classify.LastWithIdExists` | scripts/classify.py:105 | every returned id has a last entry |
| `Classify.RelabelledAt` | scripts/classify.py:107-111 | each record is relabelled from the dict entry for its id, if any |
| `Classify.RelabelledSpec` | scripts/classify.py:105-111 | a record whose id was not returned is unchanged; one whose id was returned gets the categories and keywords of the last entry with its id and keeps everything else |
| `Classify.WriteBack` | scripts/classify.py:105-111 | the write-back loop leaves `all_posts` relabelled |
| `Classify.ClassifierClassifies` | scripts/classify.py:101 | the classifier is `classify_batch` |
| `Classify.ResultsAt` | scripts/classify.py:95-101 | result k is the classification of batch k |
| `Classify.SuccessesBound` | scripts/classify.py:103-123 | at most every batch succeeds, and none does exactly when every batch gave nothing |
| `Classify.ProcessedKeepsRecords` | scripts/classify.py:107-111 | processing changes nothing but categories and keywords |
| `Classify.ProcessedLeavesUnnamed` | scripts/classify.py:103-111 | a record no batch returned is left exactly as it was |
| `Classify.AllFailedChangesNothing` | scripts/classify.py:103-123 | when every batch fails the records are unchanged |
| `Classify.ProcessedNext` | scripts/classify.py:103-123 | one more batch relabels the archive when it gave classifications and counts a success exactly then |
| `Classify.BatchNumber` | scripts/classify.py:96 | the batch number of index 10k is k |
| `Classify.ProcessBatch` | scripts/classify.py:101-123 | one batch: a success exactly when it gave classifications, and the archive relabelled exactly then |
| `Classify.BatchLoop` | scripts/classify.py:95-125 | the loop leaves the archive processed by every batch's result, counts the successes, and successes plus failures is the number of batches |
| `Classify.ProcessBatches` | scripts/classify.py:86-125 | `process_batches` with the service: the archive after every batch, the number of successes, and the two counters summing to `total_batches` |
| `Classify.Occurrences` | scripts/classify.py:140-142 | a category occurs a positive number of times exactly when it is in the list |
| `Classify.OccurrencesSnoc` | scripts/classify.py:141-142 | appending one category adds one to its count and nothing to the others |
| `Classify.GatherLabels` | scripts/classify.py:134-138 | the loop concatenates the classified records' categories and keywords in order |
| `Classify.CountsOccurrences` | scripts/classify.py:140-142 | the counter's keys are exactly the categories, each mapped to its number of occurrences |
| `Classify.KeyOrderLists` | scripts/classify.py:140-142 | the key order lists each counted category once |
| `Classify.CountsSum` | scripts/classify.py:140-142 | the counts add up to the number of categories |
| `Classify.CountCategories` | scripts/classify.py:140-142 | the counting loop gives each category its occurrences, keys exactly the categories in first-seen order, and counts summing to the list's length |
| `Classify.FinalStatistics` | scripts/classify.py:127-142 | the classified records, their categories and keywords in order, and the category counts |

## Left out

- Browser automation is not modelled: launching, cookies, navigation, scrolling, waits and
  `navigate_to_saved_posts`. Each round's page is a parameter.
- The filesystem is not modelled: `load_cookies`, `load_existing_posts`, writing the file,
  backups, `load_all_posts` and `save_progress`. A mid-run save is modelled as the merge it
  writes.
- The OpenAI service is not modelled: the system prompt, model name and temperature are folded
  into the `Completion` parameter. `json.dumps` and `json.loads` are parameters too.
- Replies that decode but are malformed are left out: a missing `post_id`, `categories` or
  `keywords` key raises `KeyError` or `TypeError` outside the `try`. The decoder yields
  well-formed classifications or nothing.
- The printing is left out, including the category distribution sorted by count, the unique
  keyword count and the ten first keywords. The model computes the lists and counts those
  lines print.
- `input`, `time.sleep`, `dotenv`, `get_api_key`, `confirm_classification`, `classify_posts`
  and `main` are left out: they are the interactive driver, not logic.
- `estimate_cost.py` is not part of this model.
- The clock is a parameter. `unknown_<timestamp>` uses a given text for the timestamp.
- Exceptions from the browser calls themselves are left out. The one error path modelled is a
  matched link without `href`, which makes `extract_post_data` return `None`.
- `Text.Lower`: folds only the letters A–Z. Python's `lower` also folds other scripts, so an
  excluded keyword written in such letters is not recognised.
- `merge_posts`'s fallback sort by `post_id` is left out. It runs only when comparing
  `saved_at` values raises, and the records here always hold strings.
- The service is not a function of its input: two identical prompts may get different replies.
  `Completion` is therefore indexed by the batch number as well as the prompt.
