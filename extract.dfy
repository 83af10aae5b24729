/**
  The record extractor: from one post container to one post record
  (`extract_post_url_and_id`, `extract_author_info`, `extract_post_content`,
  `extract_media_info`, `extract_timestamp`, `extract_post_data`).
  */
module Extract {
  import opened Wrappers
  import opened Text
  import opened Dom
  import opened Posts
  import opened Selectors

  const BaseUrl := "https://www.threads.com"
  const PostMarker := "/post/"
  const MinContentLength := 10
  const ExcludedKeywords: seq<string> := ["icon", "logo", "button", "avatar"]

  // ---------------------------------------------------------------- URL and id

  /** The permalink element: the first post link, else the first threads.com link. */
  function PostLink(c: Container): Option<Node> {
    match QuerySelector(c, PostLinkSelector)
    case Some(n) => Some(n)
    case None => QuerySelector(c, AlternativeLinkSelector)
  }

  /** `url.split("/post/")[-1].split("?")[0]` when "/post/" occurs in the URL, "" otherwise. */
  function IdFromUrl(url: string): string {
    if Contains(url, PostMarker) then Split(Last(Split(url, PostMarker)), "?")[0] else ""
  }

  /** The id in a permalink is the text after the last split point on
      "/post/", up to the first "?" after it: neither marker occurs in it. */
  lemma IdFromUrlShape(url: string)
    requires Contains(url, PostMarker)
    ensures var tail := Last(Split(url, PostMarker)); var id := IdFromUrl(url);
      && !Contains(id, "?")
      && !Contains(id, PostMarker)
      && EndsWith(url, PostMarker + tail)
      && StartsWith(tail, id)
      && (|id| == |tail| || tail[|id|] == '?')
  {
    BetweenLastAndFirst(url, PostMarker, "?");
  }

  /** A relative permalink is made absolute on the site's origin. */
  function Absolute(url: string): (r: string)
    ensures StartsWith(url, "/") ==> StartsWith(r, BaseUrl) && r[|BaseUrl|..] == url
    ensures !StartsWith(url, "/") ==> r == url
  {
    if StartsWith(url, "/") then BaseUrl + url else url
  }

  /** The time-based fallback id `unknown_<timestamp>`. */
  function UnknownId(now: Instant): string {
    "unknown_" + now.epochSeconds
  }

  /** `extract_post_url_and_id`: the absolute URL and the id. `None` stands for
      the TypeError raised when the link element has no `href`. */
  function PostUrlAndId(c: Container, now: Instant): (r: Option<(string, string)>)
    ensures r.None? <==> PostLink(c).Some? && "href" !in PostLink(c).value.attrs
    ensures r.Some? ==> r.value.1 != ""
    ensures r.Some? && PostLink(c).None? ==> r.value == ("", UnknownId(now))
    ensures r.Some? && PostLink(c).Some? ==>
      var href := PostLink(c).value.attrs["href"];
      && r.value.0 == Absolute(href)
      && r.value.1 == (if IdFromUrl(href) != "" then IdFromUrl(href) else UnknownId(now))
  {
    var href := match PostLink(c) case None => Some("") case Some(n) => Attribute(n, "href");
    match href
    case None => None
    case Some(url) =>
      assert !Contains("", PostMarker);
      var id := IdFromUrl(url);
      Some((Absolute(url), if id != "" then id else UnknownId(now)))
  }

  // ---------------------------------------------------------------- author

  /** Drop a leading "/@" (two characters), or else a leading "@". */
  function DropHandlePrefix(t: string): (r: string)
    ensures StartsWith(t, "/@") ==> t == "/@" + r
    ensures !StartsWith(t, "/@") && StartsWith(t, "@") ==> t == "@" + r
    ensures !StartsWith(t, "/@") && !StartsWith(t, "@") ==> r == t
  {
    if StartsWith(t, "/@") then t[2..] else if StartsWith(t, "@") then t[1..] else t
  }

  /** `extract_author_info`. */
  function AuthorOf(c: Container): Author {
    var username := DropHandlePrefix(FirstValue(c, UsernameSelectors, HrefOrText));
    var found := FindElementBySelectors(c, DisplayNameSelectors, None);
    var displayName := if StartsWith(found, "@") then "" else found;
    Author(username, if displayName != "" then displayName else username)
  }

  /** The display name is the first non-handle display text, and falls back to
      the username exactly when there is none. */
  lemma AuthorSpec(c: Container)
    ensures var a := AuthorOf(c);
      var found := FindElementBySelectors(c, DisplayNameSelectors, None);
      && (found != "" && !StartsWith(found, "@") ==> a.displayName == found)
      && (found == "" || StartsWith(found, "@") ==> a.displayName == a.username)
      && (a.displayName == "" ==> a.username == "")
      && (StartsWith(a.displayName, "@") ==> a.displayName == a.username)
  {
  }

  /** The username is the first non-empty `href`-or-text of the username
      selectors, with its handle marker removed. */
  lemma UsernameSpec(c: Container)
    ensures var raw := FirstValue(c, UsernameSelectors, HrefOrText);
      var u := AuthorOf(c).username;
      raw == "/@" + u || raw == "@" + u || raw == u
    ensures FirstValue(c, UsernameSelectors, HrefOrText) == "" ==> AuthorOf(c).username == ""
  {
  }

  // ---------------------------------------------------------------- content

  /** A text that may be the post's content: longer than the minimum and not a handle. */
  predicate Qualifies(t: string) {
    t != "" && |t| > MinContentLength && !StartsWith(t, "@")
  }

  /** The stripped texts of `nodes` that qualify, in document order. */
  function QualifyingTexts(nodes: seq<Node>): (r: seq<string>)
    ensures forall k :: 0 <= k < |r| ==> Qualifies(r[k])
    ensures |r| <= |nodes|
    decreases |nodes|
  {
    if nodes == [] then []
    else
      var t := Strip(Last(nodes).innerText);
      QualifyingTexts(nodes[..|nodes| - 1]) + (if Qualifies(t) then [t] else [])
  }

  /** The qualifying texts of the first content selector whose matches
      yield any, `[]` when none does. */
  function Candidates(c: Container, selectors: seq<string>): seq<string>
    decreases |selectors|
  {
    if selectors == [] then []
    else
      var texts := QualifyingTexts(QueryAll(c, selectors[0]));
      if texts != [] then texts else Candidates(c, selectors[1..])
  }

  /** The candidates are empty exactly when no selector yields a qualifying
      text, and otherwise they are the texts of the first selector that does. */
  lemma {:induction false} CandidatesSpec(c: Container, selectors: seq<string>)
    ensures var r := Candidates(c, selectors);
      r == [] <==> forall i :: 0 <= i < |selectors| ==> QualifyingTexts(QueryAll(c, selectors[i])) == []
    ensures var r := Candidates(c, selectors);
      r != [] ==>
      exists i :: && 0 <= i < |selectors| && r == QualifyingTexts(QueryAll(c, selectors[i]))
                  && (forall j :: 0 <= j < i ==> QualifyingTexts(QueryAll(c, selectors[j])) == [])
    decreases |selectors|
  {
    if selectors != [] && QualifyingTexts(QueryAll(c, selectors[0])) == [] {
      var rest := selectors[1..];
      CandidatesSpec(c, rest);
      assert forall i :: 0 < i < |selectors| ==> selectors[i] == rest[i - 1];
      var r := Candidates(c, rest);
      if r != [] {
        var i :| && 0 <= i < |rest| && r == QualifyingTexts(QueryAll(c, rest[i]))
                 && (forall j :: 0 <= j < i ==> QualifyingTexts(QueryAll(c, rest[j])) == []);
        assert r == QualifyingTexts(QueryAll(c, selectors[i + 1]));
      }
    }
  }

  /** `max(texts, key=len)`: the index of the first text of greatest length. */
  function LongestIndex(texts: seq<string>): (k: nat)
    requires texts != []
    ensures k < |texts|
    ensures forall j :: 0 <= j < |texts| ==> |texts[j]| <= |texts[k]|
    ensures forall j :: 0 <= j < k ==> |texts[j]| < |texts[k]|
    decreases |texts|
  {
    if |texts| == 1 then 0
    else
      var m := 1 + LongestIndex(texts[1..]);
      assert forall j :: 1 <= j < |texts| ==> texts[j] == texts[1..][j - 1];
      if |texts[0]| >= |texts[m]| then 0 else m
  }

  /** The first longest of the texts the first productive selector yields, "" if none does. */
  function ContentFrom(c: Container, selectors: seq<string>): string {
    var texts := Candidates(c, selectors);
    if texts == [] then "" else texts[LongestIndex(texts)]
  }

  /** The content the extractor chooses. */
  function ContentOf(c: Container): string {
    ContentFrom(c, ContentSelectors)
  }

  /** Selector `i` is the first whose matches yield a qualifying text. */
  predicate FirstYielding(c: Container, selectors: seq<string>, i: int) {
    && 0 <= i < |selectors| && QualifyingTexts(QueryAll(c, selectors[i])) != []
    && (forall j :: 0 <= j < i ==> QualifyingTexts(QueryAll(c, selectors[j])) == [])
  }

  /** Content is "" exactly when no content selector yields a qualifying
      text; otherwise it is longer than the minimum and is not a handle. */
  lemma ContentSpec(c: Container, selectors: seq<string>)
    ensures var r := ContentFrom(c, selectors);
      && (r == "" <==>
          forall i :: 0 <= i < |selectors| ==> QualifyingTexts(QueryAll(c, selectors[i])) == [])
      && (r != "" ==> |r| > MinContentLength && !StartsWith(r, "@"))
  {
    CandidatesSpec(c, selectors);
    var texts := Candidates(c, selectors);
    if texts != [] {
      var k := LongestIndex(texts);
      assert Qualifies(texts[k]);
    }
  }

  /** Non-empty content is a first longest of the texts that the first
      productive selector yields. */
  lemma ContentFirstLongest(c: Container, selectors: seq<string>, i: int)
    requires FirstYielding(c, selectors, i)
    ensures var r := ContentFrom(c, selectors);
      var ts := QualifyingTexts(QueryAll(c, selectors[i]));
      exists k :: && 0 <= k < |ts| && r == ts[k]
                  && (forall j :: 0 <= j < |ts| ==> |ts[j]| <= |ts[k]|)
                  && (forall j :: 0 <= j < k ==> |ts[j]| < |ts[k]|)
  {
    CandidatesSpec(c, selectors);
    var texts := Candidates(c, selectors);
    assert texts != [] by {
      assert QualifyingTexts(QueryAll(c, selectors[i])) != [];
    }
    var i' :| && 0 <= i' < |selectors| && texts == QualifyingTexts(QueryAll(c, selectors[i']))
              && (forall j :: 0 <= j < i' ==> QualifyingTexts(QueryAll(c, selectors[j])) == []);
    assert !(i < i') && !(i' < i);
    var k := LongestIndex(texts);
    assert ContentFrom(c, selectors) == texts[k];
  }

  /** `extract_post_content`: collect the qualifying texts of each content
      selector in turn, stop at the first selector that gave any, and keep the
      longest. */
  method ExtractPostContent(c: Container) returns (content: string)
    ensures content == ContentOf(c)
  {
    var texts: seq<string> := [];
    var i := 0;
    while i < |ContentSelectors|
      invariant 0 <= i <= |ContentSelectors|
      invariant texts == [] && Candidates(c, ContentSelectors[i..]) == Candidates(c, ContentSelectors)
    {
      var elements := QueryAll(c, ContentSelectors[i]);
      texts := CollectQualifying(elements);
      if texts != [] {
        break;
      }
      assert ContentSelectors[i..][1..] == ContentSelectors[i + 1..];
      i := i + 1;
    }
    content := if texts == [] then "" else texts[LongestIndex(texts)];
  }

  /** The inner loop of `extract_post_content`: the stripped texts of the
      matches that qualify. */
  method CollectQualifying(elements: seq<Node>) returns (texts: seq<string>)
    ensures texts == QualifyingTexts(elements)
  {
    texts := [];
    for k := 0 to |elements|
      invariant texts == QualifyingTexts(elements[..k])
    {
      var text := Strip(elements[k].innerText);
      assert elements[..k + 1][..k] == elements[..k];
      if text != "" && |text| > MinContentLength && !StartsWith(text, "@") {
        texts := texts + [text];
      }
    }
    assert elements[..|elements|] == elements;
  }

  // ---------------------------------------------------------------- media

  /** The image URL contains, case-insensitively, one of the decorative keywords. */
  predicate IsDecorative(src: string) {
    exists k :: 0 <= k < |ExcludedKeywords| && Contains(Lower(src), ExcludedKeywords[k])
  }

  predicate IsHttp(src: string) {
    StartsWith(src, "http")
  }

  /** The image entries: absolute `src` URLs that are not decorative. */
  function ImageEntries(images: seq<Node>): (r: seq<Media>)
    ensures forall k :: 0 <= k < |r| ==> r[k].kind == Image && IsHttp(r[k].url) && !IsDecorative(r[k].url)
    ensures |r| <= |images|
    decreases |images|
  {
    if images == [] then []
    else
      var src := AttributeText(Last(images), "src");
      ImageEntries(images[..|images| - 1])
        + (if src != "" && IsHttp(src) && !IsDecorative(src) then [Media(Image, src)] else [])
  }

  /** The `src`, or else the `poster`, of a video element. */
  function VideoSource(video: Node): string {
    var src := AttributeText(video, "src");
    if src != "" then src else AttributeText(video, "poster")
  }

  /** The video entries: absolute `src`-or-`poster` URLs. */
  function VideoEntries(videos: seq<Node>): (r: seq<Media>)
    ensures forall k :: 0 <= k < |r| ==> r[k].kind == Video && IsHttp(r[k].url)
    ensures |r| <= |videos|
    decreases |videos|
  {
    if videos == [] then []
    else
      var src := VideoSource(Last(videos));
      VideoEntries(videos[..|videos| - 1])
        + (if src != "" && IsHttp(src) then [Media(Video, src)] else [])
  }

  /** The entries of `<source>` elements inside videos: absolute `src` URLs. */
  function SourceEntries(sources: seq<Node>): (r: seq<Media>)
    ensures forall k :: 0 <= k < |r| ==> r[k].kind == Video && IsHttp(r[k].url)
    ensures |r| <= |sources|
    decreases |sources|
  {
    if sources == [] then []
    else
      var src := AttributeText(Last(sources), "src");
      SourceEntries(sources[..|sources| - 1])
        + (if src != "" && IsHttp(src) then [Media(Video, src)] else [])
  }

  /** The three queries, concatenated without removing duplicates. */
  function MediaOf(c: Container): seq<Media> {
    ImageEntries(QueryAll(c, "img")) + VideoEntries(QueryAll(c, "video")) + SourceEntries(QueryAll(c, "video source"))
  }

  /** Every media URL is absolute, no image is decorative, and all images come
      before all videos. */
  lemma MediaSpec(c: Container)
    ensures forall m :: m in MediaOf(c) ==> IsHttp(m.url)
    ensures forall m :: m in MediaOf(c) && m.kind == Image ==> !IsDecorative(m.url)
    ensures forall i, j :: 0 <= i < j < |MediaOf(c)| && MediaOf(c)[j].kind == Image ==> MediaOf(c)[i].kind == Image
    ensures |MediaOf(c)| <= |QueryAll(c, "img")| + |QueryAll(c, "video")| + |QueryAll(c, "video source")|
  {
    var imgs := ImageEntries(QueryAll(c, "img"));
    var vids := VideoEntries(QueryAll(c, "video")) + SourceEntries(QueryAll(c, "video source"));
    assert MediaOf(c) == imgs + vids;
  }

  /** `extract_media_info`: three loops appending to one list. */
  method ExtractMediaInfo(c: Container) returns (media: seq<Media>)
    ensures media == MediaOf(c)
  {
    var images := CollectImages(QueryAll(c, "img"));
    var videos := CollectVideos(QueryAll(c, "video"));
    var sources := CollectSources(QueryAll(c, "video source"));
    media := images + videos + sources;
  }

  /** The image loop of `extract_media_info`. */
  method CollectImages(images: seq<Node>) returns (media: seq<Media>)
    ensures media == ImageEntries(images)
  {
    media := [];
    for k := 0 to |images|
      invariant media == ImageEntries(images[..k])
    {
      assert images[..k + 1][..k] == images[..k];
      var src := AttributeText(images[k], "src");
      if src != "" && IsHttp(src) && !IsDecorative(src) {
        media := media + [Media(Image, src)];
      }
    }
    assert images[..|images|] == images;
  }

  /** The video loop of `extract_media_info`. */
  method CollectVideos(videos: seq<Node>) returns (media: seq<Media>)
    ensures media == VideoEntries(videos)
  {
    media := [];
    for k := 0 to |videos|
      invariant media == VideoEntries(videos[..k])
    {
      assert videos[..k + 1][..k] == videos[..k];
      var src := VideoSource(videos[k]);
      if src != "" && IsHttp(src) {
        media := media + [Media(Video, src)];
      }
    }
    assert videos[..|videos|] == videos;
  }

  /** The `<source>` loop of `extract_media_info`. */
  method CollectSources(sources: seq<Node>) returns (media: seq<Media>)
    ensures media == SourceEntries(sources)
  {
    media := [];
    for k := 0 to |sources|
      invariant media == SourceEntries(sources[..k])
    {
      assert sources[..k + 1][..k] == sources[..k];
      var src := AttributeText(sources[k], "src");
      if src != "" && IsHttp(src) {
        media := media + [Media(Video, src)];
      }
    }
    assert sources[..|sources|] == sources;
  }

  // ---------------------------------------------------------------- timestamp

  /** `extract_timestamp`: the first non-empty `datetime` attribute of the first
      match of a timestamp selector, in list order. */
  function TimestampOf(c: Container): (r: string)
    ensures r == "" <==>
      forall i :: 0 <= i < |TimestampSelectors| ==> SelectorValue(c, TimestampSelectors[i], AttributeValue("datetime")) == ""
  {
    FindElementBySelectors(c, TimestampSelectors, Some("datetime"))
  }

  // ---------------------------------------------------------------- the record

  /** `extract_post_data`: the record of one container, stamped with `now`.
      `None` only where the permalink element has no `href`. */
  function PostDataOf(c: Container, now: Instant): (r: Option<Post>)
    ensures r.None? <==> PostLink(c).Some? && "href" !in PostLink(c).value.attrs
    ensures r.Some? ==> && r.value.postId != ""
                        && r.value.savedAt == now.isoUtc
                        && r.value.categories == Some([]) && r.value.keywords == Some([])
  {
    match PostUrlAndId(c, now)
    case None => None
    case Some((url, id)) =>
      Some(Post(id, url, AuthorOf(c), ContentOf(c), MediaOf(c), TimestampOf(c), now.isoUtc, Some([]), Some([])))
  }

  /** A container none of whose content selectors matches anything still gives
      a record, with empty content. */
  lemma NoContentGivesEmpty(c: Container, now: Instant)
    requires forall i :: 0 <= i < |ContentSelectors| ==> QueryAll(c, ContentSelectors[i]) == []
    requires PostLink(c).None? || "href" in PostLink(c).value.attrs
    ensures PostDataOf(c, now).Some? && PostDataOf(c, now).value.content == ""
  {
    ContentSpec(c, ContentSelectors);
  }

  /** `extract_post_data` as the source runs it: each field extractor in turn. */
  method ExtractPostData(c: Container, now: Instant) returns (post: Option<Post>)
    ensures post == PostDataOf(c, now)
  {
    var link := PostUrlAndId(c, now);
    if link.None? {
      return None;
    }
    var (url, id) := link.value;
    var author := AuthorOf(c);
    var content := ExtractPostContent(c);
    var media := ExtractMediaInfo(c);
    var timestamp := TimestampOf(c);
    post := Some(Post(id, url, author, content, media, timestamp, now.isoUtc, Some([]), Some([])));
  }
}
