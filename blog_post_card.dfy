/**
 * The blog list card: link target, excerpt and read time of a post. The date line is
 * not part of this model.
 */
module BlogPostCard {
  import JsString
  import ApiTypes

  const WordsPerMinute: nat := 200
  const ExcerptLength: nat := 150

  const LongOpening: string := "This is a very long content"
  const LongSentence: string := LongOpening + " that should be truncated with ellipsis. "

  /** `Math.ceil(content.split(" ").length / 200)` */
  function ReadTime(content: string): (r: nat)
    ensures r >= 1
    ensures r * WordsPerMinute >= |JsString.Split(content, " ")|
    ensures (r - 1) * WordsPerMinute < |JsString.Split(content, " ")|
  {
    var pieces := |JsString.Split(content, " ")|;
    (pieces + WordsPerMinute - 1) / WordsPerMinute
  }

  /** The pieces are the spaces plus one, so the read time counts spaces. */
  lemma ReadTimeBySpaces(content: string)
    ensures ReadTime(content) == (JsString.Count(content, ' ') + WordsPerMinute) / WordsPerMinute
  {
    JsString.SplitCharCount(content, ' ');
  }

  /** Even the empty post takes one minute, and any content of up to 199 characters
      takes exactly one. */
  lemma ShortReadTime(content: string)
    requires |content| < WordsPerMinute
    ensures ReadTime(content) == 1
  {
    ReadTimeBySpaces(content);
    JsString.CountAtMost(content, ' ');
  }

  /** Adding text never lowers the read time. */
  lemma ReadTimeMonotone(a: string, b: string)
    ensures ReadTime(a) <= ReadTime(a + b)
  {
    ReadTimeBySpaces(a);
    ReadTimeBySpaces(a + b);
    JsString.CountConcat(a, b, ' ');
  }

  /** The first post of the test fixtures reads in one minute. */
  lemma MockPostReadTime()
    ensures ReadTime("This is a comprehensive guide to Next.js development...") == 1
  {
    ShortReadTime("This is a comprehensive guide to Next.js development...");
  }

  /** The first 150 characters followed by "...", which is added to short content too. */
  function Excerpt(content: string): (r: string)
    ensures |r| == (if |content| < ExcerptLength then |content| else ExcerptLength) + 3
    ensures r[..|r| - 3] <= content && r[|r| - 3..] == "..."
    ensures |content| <= ExcerptLength ==> r == content + "..."
  {
    JsString.Prefix(content, ExcerptLength) + "..."
  }

  /** `/blog/${post.slug}` */
  function Link(slug: string): (r: string)
    ensures JsString.StartsWith(r, "/blog/") && r[6..] == slug
  {
    "/blog/" + slug
  }

  /** Different posts' slugs link to different pages. */
  lemma LinkInjective(a: string, b: string)
    ensures Link(a) == Link(b) ==> a == b
  {
    if Link(a) == Link(b) {
      assert a == Link(a)[6..];
    }
  }

  /** What the card shows of a post. */
  datatype Card = Card(href: string, title: string, excerpt: string, author: string, readTimeText: string)

  function Render(post: ApiTypes.BlogPost): Card {
    Card(Link(post.slug), post.title, Excerpt(post.content), post.author,
         JsString.NatToString(ReadTime(post.content)) + " min read")
  }

  /** A post of at most 150 characters, such as the first post of the test fixtures, shows
      its whole content before the "..." and reads "1 min read". */
  lemma ShortPostCard(post: ApiTypes.BlogPost)
    requires |post.content| <= ExcerptLength
    ensures Render(post).readTimeText == "1 min read"
    ensures Render(post).href == "/blog/" + post.slug
    ensures Render(post).excerpt == post.content + "..."
  {
    ShortReadTime(post.content);
    assert JsString.NatToString(1) == "1";
  }

  /** A post longer than 150 characters shows only its first 150 before the "...", so
      the excerpt is never the whole content. */
  lemma LongPostCard(post: ApiTypes.BlogPost)
    requires |post.content| > ExcerptLength
    ensures Render(post).excerpt == post.content[..ExcerptLength] + "..."
    ensures Render(post).excerpt != post.content + "..."
  {
    assert |Render(post).excerpt| < |post.content + "..."|;
  }

  /** The excerpt keeps any opening of the content that fits in 150 characters. */
  lemma ExcerptKeepsOpening(content: string, p: string)
    requires JsString.StartsWith(content, p) && |p| <= ExcerptLength
    ensures JsString.StartsWith(Excerpt(content), p)
  {
    var r := Excerpt(content);
    assert r[..|p|] == r[..|r| - 3][..|p|];
    assert content[..|p|] == r[..|r| - 3][..|p|];
  }

  /** The long post of the card's tests: one sentence twenty times is cut, keeps its
      opening words and ends in "...". */
  lemma LongTestPost()
    ensures var c := JsString.Repeat(LongSentence, 20);
            && |c| > ExcerptLength
            && Excerpt(c) == c[..ExcerptLength] + "..."
            && JsString.StartsWith(Excerpt(c), LongOpening)
            && Excerpt(c)[|Excerpt(c)| - 3..] == "..."
  {
    var c := JsString.Repeat(LongSentence, 20);
    JsString.RepeatLength(LongSentence, 20);
    JsString.StartsWithConcat(LongSentence, JsString.Repeat(LongSentence, 19), LongOpening);
    ExcerptKeepsOpening(c, LongOpening);
  }
}
