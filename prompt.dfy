/**
  `classification_prompt.py`: the records a batch is sent as, and the prompt
  around them. `json.dumps` is a parameter: the prompt only needs that it
  turns a batch into a string.
  */
module Prompt {
  import opened Text
  import opened Posts

  const MaxContentLength := 500
  const TruncateSuffix := "..."
  const BatchSize := 10

  /** `CLASSIFICATION_RULES`, the instructions that open every prompt,
      followed by `rest`. The prompt is built from this template rather than
      from a constant, so that the long text is only unfolded where a proof
      is about the prompt itself. */
  function RulesThen(rest: string): string {
    "請分析以下 Threads 貼文，為每篇貼文分配合適的分類和關鍵字。\n"
    + "\n"
    + "分類規則：\n"
    + "1. Categories (1-2個主要分類)：技術、健康、美食、食譜、旅行、生活、學習、工作、娛樂、攝影、設計、投資、職場、運動、韓流、語言學習、流行、寵物\n"
    + "   - 如果內容為空或極短（少於5個字符），請分類為 [\"未分類\"]\n"
    + "   - 如果無法從內容判斷明確分類，也請分類為 [\"未分類\"]\n"
    + "   - 如果不符合以上分類，可以創建新的中文分類\n"
    + "2. Keywords (2-5個關鍵字)：具體的標籤，如地點、工具、食物、概念等\n"
    + "   - 對於 \"未分類\" 的貼文，keywords 可以設為 [\"需要手動檢查\"]\n"
    + "\n"
    + "回傳格式：請回傳 JSON 陣列，每個物件包含 post_id、categories、keywords\n"
    + "\n"
    + "請直接回傳 JSON 格式的分類結果，不要包含任何其他文字。"
    + rest
  }

  /** `CLASSIFICATION_RULES` */
  function ClassificationRules(): string {
    RulesThen("")
  }

  lemma RulesThenSplit(rest: string)
    ensures RulesThen(rest) == ClassificationRules() + rest
  {
  }

  /** What separates the instructions from the serialised batch. */
  const PostsHeader := "\n\n貼文內容：\n"

  /** `{"post_id": ..., "content": ...}`: the only fields the model is shown. */
  datatype PromptPost = PromptPost(postId: string, content: string)

  /** The content as it is sent. */
  function Truncated(content: string): string {
    if |content| > MaxContentLength then RStrip(content[..MaxContentLength]) + TruncateSuffix else content
  }

  /** Content up to the maximum is sent unchanged. Longer content is cut to
      the maximum, loses only its trailing whitespace there, and ends with the
      suffix, so it is at most the maximum plus the suffix long. */
  lemma TruncatedSpec(content: string)
    ensures |content| <= MaxContentLength ==> Truncated(content) == content
    ensures |content| > MaxContentLength ==>
      var r := Truncated(content);
      var kept := |r| - |TruncateSuffix|;
      && EndsWith(r, TruncateSuffix)
      && 0 <= kept <= MaxContentLength
      && r[..kept] == content[..kept]
      && (forall k :: kept <= k < MaxContentLength ==> IsSpace(content[k]))
      && (kept == 0 || !IsSpace(content[kept - 1]))
  {
    if |content| > MaxContentLength {
      var cut := content[..MaxContentLength];
      RStripSpec(cut);
      var r := Truncated(content);
      var kept := |RStrip(cut)|;
      assert r[..kept] == RStrip(cut);
      assert r[kept..] == TruncateSuffix;
      forall k | kept <= k < MaxContentLength ensures IsSpace(content[k]) {
        assert content[k] == cut[k];
      }
      if kept > 0 {
        assert content[kept - 1] == RStrip(cut)[kept - 1];
      }
    }
  }

  /** One record as the model sees it. */
  function PromptPostOf(p: Post): PromptPost {
    PromptPost(p.postId, Truncated(p.content))
  }

  /** The records of a batch as the model sees them. */
  function Prepared(posts: seq<Post>): (r: seq<PromptPost>)
    ensures |r| == |posts|
    decreases |posts|
  {
    if posts == [] then [] else Prepared(posts[..|posts| - 1]) + [PromptPostOf(Last(posts))]
  }

  /** The prepared list keeps the length and the order, and each record keeps
      its id and carries only its truncated content. */
  lemma {:induction false} PreparedSpec(posts: seq<Post>)
    ensures forall i :: 0 <= i < |posts| ==> Prepared(posts)[i] == PromptPost(posts[i].postId, Truncated(posts[i].content))
    decreases |posts|
  {
    if posts != [] {
      var init := posts[..|posts| - 1];
      PreparedSpec(init);
      var r := Prepared(posts);
      assert r == Prepared(init) + [PromptPostOf(Last(posts))];
      forall i | 0 <= i < |posts| ensures r[i] == PromptPostOf(posts[i]) {
        if i < |init| {
          assert r[i] == Prepared(init)[i] && init[i] == posts[i];
        }
      }
    }
  }

  /** `prepare_posts_for_classification` */
  method PreparePostsForClassification(posts: seq<Post>) returns (prepared: seq<PromptPost>)
    ensures prepared == Prepared(posts)
  {
    prepared := [];
    for i := 0 to |posts|
      invariant prepared == Prepared(posts[..i])
    {
      assert posts[..i + 1][..i] == posts[..i];
      var content := posts[i].content;
      if |content| > MaxContentLength {
        content := RStrip(content[..MaxContentLength]) + TruncateSuffix;
      }
      prepared := prepared + [PromptPost(posts[i].postId, content)];
    }
    assert posts[..|posts|] == posts;
  }

  /** `json.dumps(posts_batch, ensure_ascii=False, indent=2)` */
  type Serializer = seq<PromptPost> -> string

  /** `build_classification_prompt` */
  function BuildClassificationPrompt(batch: seq<PromptPost>, serialize: Serializer): string {
    RulesThen(PostsHeader + serialize(batch))
  }

  /** A fixed text followed by a variable one. */
  lemma FrameShape(frame: string, body: string)
    ensures StartsWith(frame + body, frame) && EndsWith(frame + body, body)
    ensures |frame + body| == |frame| + |body|
    ensures (frame + body)[|frame|..] == body
  {
    assert (frame + body)[..|frame|] == frame;
  }

  /** The prompt opens with the rules and the header and ends with the
      serialised batch, and nothing else is in it. */
  lemma PromptShape(batch: seq<PromptPost>, serialize: Serializer)
    ensures var r := BuildClassificationPrompt(batch, serialize);
      && StartsWith(r, ClassificationRules() + PostsHeader)
      && EndsWith(r, serialize(batch))
      && |r| == |ClassificationRules()| + |PostsHeader| + |serialize(batch)|
  {
    RulesThenSplit(PostsHeader + serialize(batch));
    assert ClassificationRules() + (PostsHeader + serialize(batch)) == ClassificationRules() + PostsHeader + serialize(batch);
    FrameShape(ClassificationRules() + PostsHeader, serialize(batch));
  }

  /** Two prompts are equal exactly when they serialise to the same text: the
      prompt adds a fixed frame and nothing that depends on the batch. */
  lemma PromptDeterminesBatch(a: seq<PromptPost>, b: seq<PromptPost>, serialize: Serializer)
    ensures BuildClassificationPrompt(a, serialize) == BuildClassificationPrompt(b, serialize)
        <==> serialize(a) == serialize(b)
  {
    var frame := ClassificationRules() + PostsHeader;
    PromptShape(a, serialize);
    PromptShape(b, serialize);
    FrameShape(frame, serialize(a));
    FrameShape(frame, serialize(b));
  }
}
