/**
 * The article body editor (components/editor/BodyEditor.tsx): a text area for the body and
 * an "Insert Image" panel whose uploaded image is appended to the body as image markdown,
 * after a blank line when the body already holds text.
 */
module BodyEditor {
  import opened Options
  import opened Text
  import opened ContentBodyRenderer
  import Feedback
  import ImageUploadPanel

  /** The markdown the editor inserts for an uploaded image: `![Image](url)`. */
  function ImageMarkdown(url: string): string
  {
    ImageSource("Image", url)
  }

  /** The new body after an upload: the old body, a blank line if it held text, then the image. */
  function AppendImage(value: string, url: string): (r: string)
    ensures |r| == |value| + (if value == "" then 0 else 2) + |ImageMarkdown(url)|
    ensures r[..|value|] == value
    ensures value != "" ==> r[|value|..|value| + 2] == "\n\n"
    ensures r[|r| - |ImageMarkdown(url)|..] == ImageMarkdown(url)
  {
    var md := ImageMarkdown(url);
    var r := value + (if value != "" then "\n\n" else "") + md;
    assert r[|r| - |md|..] == md;
    r
  }

  /** The inserted markdown is an image the renderer recognises, for any non-empty URL without `)`. */
  lemma InsertedImageMatches(value: string, url: string)
    requires url != "" && ')' !in url
    ensures var r := AppendImage(value, url);
      MatchImage(r[|r| - |ImageMarkdown(url)|..]) == Some(ImageMatch("Image", url, |ImageMarkdown(url)|))
  {
    var r := AppendImage(value, url);
    assert r[|r| - |ImageMarkdown(url)|..] == ImageMarkdown(url) + "";
    ImageMatches("Image", url, "");
  }

  /** A character in neither the alt text nor the URL, nor in the fixed parts of the tag, is not in the `img` tag. */
  lemma ImgTagLacks(x: char, alt: string, url: string)
    requires x !in alt && x !in url && x != '<' && x != '>' && x != '"' && x != '/'
    requires x !in "img src=" && x !in " alt=" && x !in " class=content-image "
    ensures x !in ImgTag(alt, url)
  {
    var p1, p2, p3 := "<img src=\"", "\" alt=\"", "\" class=\"content-image\" />";
    assert x !in p1 && x !in p2 && x !in p3;
    NotInConcat(x, p1, url);
    NotInConcat(x, p1 + url, p2);
    NotInConcat(x, p1 + url + p2, alt);
    NotInConcat(x, p1 + url + p2 + alt, p3);
  }

  /** An `img` tag starts with `<`, so the paragraph pass never wraps it. */
  lemma ImgTagOpens(alt: string, url: string)
    ensures |ImgTag(alt, url)| > 0 && ImgTag(alt, url)[0] == '<'
  {
    var p1 := "<img src=\"";
    assert ImgTag(alt, url) == p1 + (url + "\" alt=\"" + alt + "\" class=\"content-image\" />");
  }

  /** Text that opens with `<` and holds no `#`, `*` or newline passes the heading, inline and paragraph passes unchanged. */
  lemma PlainTagPassesThrough(t: string)
    requires t != [] && t[0] == '<' && '#' !in t && '*' !in t && '\n' !in t
    ensures Paragraphs(Inline(Headings(t))) == t
  {
    assert "### "[0] == '#' && "## "[0] == '#' && "# "[0] == '#';
    StarlessUnchanged(t, 2, "strong");
    StarlessUnchanged(t, 1, "em");
    Feedback.MissingCharExcludes(t, "\n\n", '\n');
    SingleChunk(t);
    assert StartsWith(t, "<");
  }

  /** An `img` tag whose alt text and URL hold none of `#`, `*` and newline holds none of them either. */
  lemma ImgTagPlain(alt: string, url: string)
    requires '#' !in alt && '*' !in alt && '\n' !in alt
    requires '#' !in url && '*' !in url && '\n' !in url
    ensures var t := ImgTag(alt, url); '#' !in t && '*' !in t && '\n' !in t
  {
    ImgTagLacks('#', alt, url);
    ImgTagLacks('*', alt, url);
    ImgTagLacks('\n', alt, url);
  }

  /** The tag the editor's image becomes opens with `<` and holds no `#`, `*` or newline when its URL holds none. */
  lemma ImageTagIsPlain(url: string)
    requires '#' !in url && '*' !in url && '\n' !in url
    ensures var t := ImgTag("Image", url); t != [] && t[0] == '<' && '#' !in t && '*' !in t && '\n' !in t
  {
    ImgTagPlain("Image", url);
    ImgTagOpens("Image", url);
  }

  /** An `img` tag for a URL without `#`, `*` or newline reaches the page as it is. */
  lemma ImgTagPassesThrough(url: string)
    requires '#' !in url && '*' !in url && '\n' !in url
    ensures Paragraphs(Inline(Headings(ImgTag("Image", url)))) == ImgTag("Image", url)
  {
    ImageTagIsPlain(url);
    PlainTagPassesThrough(ImgTag("Image", url));
  }

  /** The image pass turns the inserted markdown into its `img` tag. */
  lemma MarkdownBecomesImgTag(url: string)
    requires url != "" && ')' !in url
    ensures ReplaceImages(ImageMarkdown(url)) == ImgTag("Image", url)
  {
    var md, t := ImageMarkdown(url), ImgTag("Image", url);
    ImageRule("Image", url, "");
    assert md + "" == md && t + "" == t;
  }

  /** Inserting an image into an empty body renders exactly that image. */
  lemma ImageIntoEmptyBody(url: string)
    requires url != "" && ')' !in url && '#' !in url && '*' !in url && '\n' !in url
    ensures Render(AppendImage("", url)) == ImgTag("Image", url)
  {
    var r := AppendImage("", url);
    assert r == r[0..];
    MarkdownBecomesImgTag(url);
    ImgTagPassesThrough(url);
  }

  /** A non-empty body gets a blank line before the image. */
  lemma AppendAfterText(value: string, url: string)
    requires value != ""
    ensures AppendImage(value, url) == value + "\n\n" + ImageMarkdown(url)
  {
  }

  /** A character in neither part is not in the two parts joined by a blank line. */
  lemma JoinLacks(c: char, a: string, b: string)
    requires c != '\n' && c !in a && c !in b
    ensures c !in a + "\n\n" + b
  {
    NotInConcat(c, a, "\n\n");
    NotInConcat(c, a + "\n\n", b);
  }

  /** Text without `#` passes the heading passes unchanged. */
  lemma HeadinglessUnchanged(s: string)
    requires '#' !in s
    ensures Headings(s) == s
  {
    assert "### "[0] == '#' && "## "[0] == '#' && "# "[0] == '#';
  }

  /** Text without `*` passes the inline passes unchanged. */
  lemma StarlessInlineUnchanged(s: string)
    requires '*' !in s
    ensures Inline(s) == s
  {
    StarlessUnchanged(s, 2, "strong");
    StarlessUnchanged(s, 1, "em");
  }

  /**
   * Plain text (no `#`, `*`, blank line or final newline) followed by a blank line and a
   * plain tag: the text becomes a paragraph and the tag follows on the next line.
   */
  lemma ParagraphThenTag(value: string, t: string)
    requires '#' !in value && '*' !in value && !Includes(value, "\n\n") && (value == [] || value[|value| - 1] != '\n')
    requires t != [] && t[0] == '<' && '#' !in t && '*' !in t && '\n' !in t
    ensures Paragraphs(Inline(Headings(value + "\n\n" + t))) == WrapParagraph(value) + "\n" + t
  {
    var x := value + "\n\n" + t;
    JoinLacks('#', value, t);
    JoinLacks('*', value, t);
    HeadinglessUnchanged(x);
    StarlessInlineUnchanged(x);
    ParagraphStep(value, t);
    HeadinglessUnchanged(t);
    StarlessInlineUnchanged(t);
    PlainTagPassesThrough(t);
  }

  /** The image pass copies text without `!` and turns the appended markdown into its tag. */
  lemma ImagesAfterText(value: string, url: string)
    requires value != [] && '!' !in value && url != "" && ')' !in url
    ensures ReplaceImages(AppendImage(value, url)) == value + "\n\n" + ImgTag("Image", url)
  {
    var md, gap := ImageMarkdown(url), value + "\n\n";
    AppendAfterText(value, url);
    NotInConcat('!', value, "\n\n");
    ReplaceImagesAfterPlain(gap, md);
    MarkdownBecomesImgTag(url);
  }

  /**
   * Inserting an image after a plain paragraph renders that paragraph followed, on the next
   * line, by the image: the blank line the editor adds is the paragraph break.
   */
  lemma ImageAfterParagraph(value: string, url: string)
    requires value != [] && '!' !in value && '#' !in value && '*' !in value
    requires !Includes(value, "\n\n") && value[|value| - 1] != '\n'
    requires url != "" && ')' !in url && '#' !in url && '*' !in url && '\n' !in url
    ensures Render(AppendImage(value, url)) == WrapParagraph(value) + "\n" + ImgTag("Image", url)
  {
    var t := ImgTag("Image", url);
    var x := ReplaceImages(AppendImage(value, url));
    assert x == value + "\n\n" + t by {
      ImagesAfterText(value, url);
    }
    ImageTagIsPlain(url);
    ParagraphThenTag(value, t);
  }

  /** The editor's own state: whether the image panel is open. */
  class Editor {
    const disabled: bool
    var showImagePanel: bool

    constructor (disabled: bool)
      ensures this.disabled == disabled && !showImagePanel
    {
      this.disabled := disabled;
      showImagePanel := false;
    }

    /**
     * The "Insert Image" button: it flips the panel unless the editor is disabled. A panel
     * that opens is a new one, starting from `''` with no preview.
     */
    method ToggleImagePanel() returns (panel: Option<ImageUploadPanel.UploadPanel>)
      modifies this
      ensures disabled ==> showImagePanel == old(showImagePanel) && panel.None?
      ensures !disabled ==> showImagePanel == !old(showImagePanel)
      ensures panel.Some? <==> !disabled && showImagePanel
      ensures panel.Some? ==> fresh(panel.value) && !panel.value.ShowsPreview() && panel.value.Idle()
    {
      panel := None;
      if !disabled {
        showImagePanel := !showImagePanel;
        if showImagePanel {
          var p := new ImageUploadPanel.UploadPanel("", disabled);
          panel := Some(p);
        }
      }
    }

    /** `handleImageUploaded`: the owner receives the body with the image appended, and the panel closes. */
    method HandleImageUploaded(value: string, url: string) returns (changed: string)
      modifies this
      ensures changed == AppendImage(value, url)
      ensures !showImagePanel
    {
      changed := AppendImage(value, url);
      showImagePanel := false;
    }
  }
}
