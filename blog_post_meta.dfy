/**
 * The blog post header: author and read time. The date line is not part of this
 * model.
 */
module BlogPostMeta {
  import JsString
  import ApiTypes
  import BlogPostCard

  /** The header computes the same `Math.ceil(content.split(" ").length / 200)` as the
      card, inline. */
  function ReadTime(content: string): (r: nat)
    ensures r >= 1
  {
    (|JsString.Split(content, " ")| + 199) / 200
  }

  /** For any post the header and the card show the same read time. */
  lemma SameAsCard(post: ApiTypes.BlogPost)
    ensures ReadTime(post.content) == BlogPostCard.ReadTime(post.content)
  {
  }

  /** `"word ".repeat(500)` has 500 spaces, so 501 pieces, so three minutes. */
  lemma RepeatedWordReadTime()
    ensures |JsString.Split(JsString.Repeat("word ", 500), " ")| == 501
    ensures ReadTime(JsString.Repeat("word ", 500)) == 3
  {
    var c := JsString.Repeat("word ", 500);
    assert JsString.Count("word ", ' ') == 1 by {
      assert JsString.Count(" ", ' ') == 1;
    }
    JsString.CountRepeat("word ", 500, ' ');
    assert JsString.Count(c, ' ') == 500;
    JsString.SplitCharCount(c, ' ');
  }

  lemma MockPostReadTime()
    ensures ReadTime("This is a comprehensive guide to Next.js development...") == 1
  {
    BlogPostCard.MockPostReadTime();
  }

  datatype Meta = Meta(author: string, readTimeText: string)

  function Render(post: ApiTypes.BlogPost): Meta {
    Meta(post.author, JsString.NatToString(ReadTime(post.content)) + " min read")
  }
}
