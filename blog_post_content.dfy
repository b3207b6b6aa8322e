/**
 * The blog post body renderer: the content is cut at every blank line ("\n\n") and
 * each chunk becomes a heading, a list, a paragraph or nothing.
 */
module BlogPostContent {
  import JsString

  /** What one chunk renders as; `Nothing` is the `null` a blank chunk maps to. */
  datatype Block =
    | H1(text: string)
    | H2(text: string)
    | H3(text: string)
    | BulletList(items: seq<string>)
    | Paragraph(text: string)
    | Nothing

  /** `item.replace(/^[-*] /, "")`: one leading "- " or "* " marker removed. */
  function StripMarker(line: string): string {
    if |line| >= 2 && (line[0] == '-' || line[0] == '*') && line[1] == ' ' then line[2..] else line
  }

  /** `lines.filter((item) => item.trim())`: the lines that are not blank, in order. */
  function NonBlank(lines: seq<string>): (r: seq<string>)
    ensures |r| <= |lines|
    ensures forall i :: 0 <= i < |r| ==> r[i] in lines && !JsString.IsBlank(r[i])
    ensures forall x :: x in lines && !JsString.IsBlank(x) ==> x in r
  {
    if |lines| == 0 then []
    else
      JsString.TrimEmptyIffBlank(lines[0]);
      assert forall x :: x in lines ==> x == lines[0] || x in lines[1..];
      (if JsString.Trim(lines[0]) != "" then [lines[0]] else []) + NonBlank(lines[1..])
  }

  /** NonBlank is a filter: it keeps a single line exactly when it is not blank and
      works on a concatenation part by part, so the kept lines stay in their order and
      each appears as often as in the input. */
  lemma NonBlankFilter(x: string, a: seq<string>, b: seq<string>)
    ensures NonBlank([x]) == if JsString.IsBlank(x) then [] else [x]
    ensures NonBlank(a + b) == NonBlank(a) + NonBlank(b)
  {
    NonBlankSingle(x);
    NonBlankConcat(a, b);
  }

  lemma NonBlankSingle(x: string)
    ensures NonBlank([x]) == if JsString.IsBlank(x) then [] else [x]
  {
    JsString.TrimEmptyIffBlank(x);
    assert [x][1..] == [];
  }

  lemma {:induction false} NonBlankConcat(a: seq<string>, b: seq<string>)
    ensures NonBlank(a + b) == NonBlank(a) + NonBlank(b)
    decreases |a|
  {
    if |a| == 0 {
      assert a + b == b;
    } else {
      var head := if JsString.Trim(a[0]) != "" then [a[0]] else [];
      assert (a + b)[0] == a[0];
      assert (a + b)[1..] == a[1..] + b;
      NonBlankConcat(a[1..], b);
      calc {
        NonBlank(a + b);
        head + NonBlank(a[1..] + b);
        head + (NonBlank(a[1..]) + NonBlank(b));
        (head + NonBlank(a[1..])) + NonBlank(b);
      }
    }
  }

  function ListItems(chunk: string): seq<string> {
    var lines := NonBlank(JsString.Split(chunk, "\n"));
    seq(|lines|, i requires 0 <= i < |lines| => StripMarker(lines[i]))
  }

  /** The tests of the renderer, in its order. */
  function Classify(chunk: string): Block {
    if JsString.StartsWith(chunk, "# ") then H1(JsString.ReplaceFirst(chunk, "# ", ""))
    else if JsString.StartsWith(chunk, "## ") then H2(JsString.ReplaceFirst(chunk, "## ", ""))
    else if JsString.StartsWith(chunk, "### ") then H3(JsString.ReplaceFirst(chunk, "### ", ""))
    else if JsString.StartsWith(chunk, "- ") || JsString.StartsWith(chunk, "* ") then BulletList(ListItems(chunk))
    else if JsString.Trim(chunk) != "" then Paragraph(chunk)
    else Nothing
  }

  function ParseContent(content: string): seq<Block> {
    var chunks := JsString.Split(content, "\n\n");
    seq(|chunks|, i requires 0 <= i < |chunks| => Classify(chunks[i]))
  }

  /** The output has one block per chunk, in order; the chunks put back together with
      "\n\n" are the content, and no chunk holds a blank line. */
  lemma ParseContentChunks(content: string)
    ensures var chunks := JsString.Split(content, "\n\n");
            && JsString.Join(chunks, "\n\n") == content
            && |ParseContent(content)| == |chunks|
            && (forall i :: 0 <= i < |chunks| ==>
                  ParseContent(content)[i] == Classify(chunks[i]) && !JsString.Contains(chunks[i], "\n\n"))
  {
    var chunks := JsString.Split(content, "\n\n");
    JsString.SplitJoin(content, "\n\n");
    forall i | 0 <= i < |chunks| ensures !JsString.Contains(chunks[i], "\n\n") {
      JsString.SplitPiecesAvoidSep(content, "\n\n", i);
    }
  }

  /** Each kind of block, from the chunk's leading characters: the heading and list
      prefixes exclude each other, so the order of the tests only places the paragraph
      and the blank chunk last. A heading's text is the chunk with its prefix removed and
      a paragraph's is the chunk itself. */
  lemma ClassifyRules(chunk: string)
    ensures Classify(chunk).H1? <==> JsString.StartsWith(chunk, "# ")
    ensures Classify(chunk).H1? ==> chunk == "# " + Classify(chunk).text
    ensures Classify(chunk).H2? <==> JsString.StartsWith(chunk, "## ")
    ensures Classify(chunk).H2? ==> chunk == "## " + Classify(chunk).text
    ensures Classify(chunk).H3? <==> JsString.StartsWith(chunk, "### ")
    ensures Classify(chunk).H3? ==> chunk == "### " + Classify(chunk).text
    ensures Classify(chunk).BulletList? <==> JsString.StartsWith(chunk, "- ") || JsString.StartsWith(chunk, "* ")
    ensures Classify(chunk).Paragraph? <==> !MarkedChunk(chunk) && !JsString.IsBlank(chunk)
    ensures Classify(chunk).Paragraph? ==> Classify(chunk).text == chunk
    ensures Classify(chunk).Nothing? <==> !MarkedChunk(chunk) && JsString.IsBlank(chunk)
  {
    JsString.TrimEmptyIffBlank(chunk);
    PrefixesExclusive(chunk);
    if JsString.StartsWith(chunk, "# ") {
      JsString.ReplacePrefix(chunk, "# ");
    } else if JsString.StartsWith(chunk, "## ") {
      JsString.ReplacePrefix(chunk, "## ");
    } else if JsString.StartsWith(chunk, "### ") {
      JsString.ReplacePrefix(chunk, "### ");
    }
  }

  /** No chunk starts with two of the five prefixes: they differ in their first, second
      or third character. */
  lemma PrefixesExclusive(chunk: string)
    ensures JsString.StartsWith(chunk, "# ") ==>
              !JsString.StartsWith(chunk, "## ") && !JsString.StartsWith(chunk, "### ")
              && !JsString.StartsWith(chunk, "- ") && !JsString.StartsWith(chunk, "* ")
    ensures JsString.StartsWith(chunk, "## ") ==>
              !JsString.StartsWith(chunk, "### ") && !JsString.StartsWith(chunk, "- ") && !JsString.StartsWith(chunk, "* ")
    ensures JsString.StartsWith(chunk, "### ") ==>
              !JsString.StartsWith(chunk, "- ") && !JsString.StartsWith(chunk, "* ")
    ensures JsString.StartsWith(chunk, "- ") ==> !JsString.StartsWith(chunk, "* ")
  {
    if |chunk| >= 2 {
      assert chunk[..2][0] == chunk[0] && chunk[..2][1] == chunk[1];
    }
    if |chunk| >= 3 {
      assert chunk[..3][0] == chunk[0] && chunk[..3][1] == chunk[1] && chunk[..3][2] == chunk[2];
    }
    if |chunk| >= 4 {
      assert chunk[..4][0] == chunk[0] && chunk[..4][1] == chunk[1] && chunk[..4][2] == chunk[2];
    }
  }

  /** The chunk starts with one of the heading or list prefixes. */
  predicate MarkedChunk(chunk: string) {
    JsString.StartsWith(chunk, "# ") || JsString.StartsWith(chunk, "## ") || JsString.StartsWith(chunk, "### ")
    || JsString.StartsWith(chunk, "- ") || JsString.StartsWith(chunk, "* ")
  }

  /** A list's items are its non-blank lines, each with one leading marker removed: an
      item put behind the marker it lost is its line again. There are never more items
      than lines, which is one more than the chunk's line breaks. */
  lemma ListItemsRules(chunk: string)
    ensures var lines := NonBlank(JsString.Split(chunk, "\n"));
            && |ListItems(chunk)| == |lines|
            && (forall i :: 0 <= i < |lines| ==>
                  (lines[i] == "- " + ListItems(chunk)[i] || lines[i] == "* " + ListItems(chunk)[i]
                   || (ListItems(chunk)[i] == lines[i] && !JsString.StartsWith(lines[i], "- ")
                       && !JsString.StartsWith(lines[i], "* "))))
    ensures |ListItems(chunk)| <= JsString.Count(chunk, '\n') + 1
  {
    var lines := NonBlank(JsString.Split(chunk, "\n"));
    forall i | 0 <= i < |lines|
      ensures lines[i] == "- " + ListItems(chunk)[i] || lines[i] == "* " + ListItems(chunk)[i]
              || (ListItems(chunk)[i] == lines[i] && !JsString.StartsWith(lines[i], "- ")
                  && !JsString.StartsWith(lines[i], "* "))
    {
      var l := lines[i];
      if |l| >= 2 && (l[0] == '-' || l[0] == '*') && l[1] == ' ' {
        assert l == l[..2] + l[2..];
      }
    }
    JsString.SplitCharCount(chunk, '\n');
  }
}
