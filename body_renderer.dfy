/**
 * The article body renderer (components/content/ContentBodyRenderer.tsx): a fixed chain
 * of rewrites from the markdown-like body to the HTML put on the page. Each global regular
 * expression replacement is written as a left-to-right scanner that, at each position,
 * either takes the match starting there and continues after it, or copies one character.
 * As in JavaScript, `.` matches anything but a line terminator, `^` and `$` under the `m`
 * flag match at line boundaries, and `[^\]]`, `[^)]` match line terminators too.
 */
module ContentBodyRenderer {
  import opened Options
  import opened Text

  /** No line terminator in `s`: all of `s` lies on one line. */
  predicate SingleLine(s: string)
  {
    forall i :: 0 <= i < |s| ==> !IsLineTerminator(s[i])
  }

  /** The first position at or after `i` where `s` holds `c`. */
  function FindCharFrom(s: string, c: char, i: nat): (r: Option<nat>)
    ensures r.Some? ==> i <= r.value < |s| && s[r.value] == c
    ensures r.Some? ==> forall j :: i <= j < r.value ==> s[j] != c
    ensures r.None? ==> forall j :: i <= j < |s| ==> s[j] != c
    decreases |s| - i
  {
    if i >= |s| then None
    else if s[i] == c then Some(i)
    else FindCharFrom(s, c, i + 1)
  }

  /** `FindCharFrom` finds exactly the first occurrence. */
  lemma {:induction false} FindCharFromAt(s: string, c: char, i: nat, k: nat)
    requires i <= k < |s| && s[k] == c
    requires forall j :: i <= j < k ==> s[j] != c
    ensures FindCharFrom(s, c, i) == Some(k)
    decreases k - i
  {
    if i < k {
      FindCharFromAt(s, c, i + 1, k);
    }
  }

  // ---- Images: /!\[([^\]]*)\]\(([^)]+)\)/g

  /** A match of the image pattern: its two groups and its length. */
  datatype ImageMatch = ImageMatch(alt: string, url: string, length: nat)

  /** The image markdown `![alt](url)`. */
  function ImageSource(alt: string, url: string): string
  {
    "![" + alt + "](" + url + ")"
  }

  /** `s` starts with an image markdown whose `]` is at `b` and whose `)` is at `p`. */
  lemma ImageSourceSlice(s: string, b: nat, p: nat)
    requires 2 <= b && b + 2 <= p < |s|
    requires s[0] == '!' && s[1] == '[' && s[b] == ']' && s[b + 1] == '(' && s[p] == ')'
    ensures s[..p + 1] == ImageSource(s[2..b], s[b + 2..p])
  {
    assert s[..p + 1] == s[..2] + s[2..b] + s[b..b + 2] + s[b + 2..p] + s[p..p + 1];
    assert s[..2] == "![";
    assert s[b..b + 2] == "](";
    assert s[p..p + 1] == ")";
  }

  /** The image pattern tried at the start of `s`. */
  function MatchImage(s: string): (r: Option<ImageMatch>)
    ensures r.Some? ==> 0 < r.value.length <= |s|
  {
    if |s| < 2 || s[0] != '!' || s[1] != '[' then None
    else match FindCharFrom(s, ']', 2)
      case None => None
      case Some(b) =>
        if b + 1 >= |s| || s[b + 1] != '(' then None
        else match FindCharFrom(s, ')', b + 2)
          case None => None
          case Some(p) =>
            if p == b + 2 then None
            else Some(ImageMatch(s[2..b], s[b + 2..p], p + 1))
  }

  /** A match is an image markdown at the start of `s`, whose alt has no `]` and whose url is non-empty and has no `)`. */
  lemma MatchImageSound(s: string)
    ensures var r := MatchImage(s);
      r.Some? ==> r.value.length == |ImageSource(r.value.alt, r.value.url)| && s[..r.value.length] == ImageSource(r.value.alt, r.value.url)
    ensures var r := MatchImage(s);
      r.Some? ==> ']' !in r.value.alt && r.value.url != "" && ')' !in r.value.url
  {
    if MatchImage(s).Some? {
      var b := FindCharFrom(s, ']', 2).value;
      var p := FindCharFrom(s, ')', b + 2).value;
      ImageSourceSlice(s, b, p);
      var alt, url := s[2..b], s[b + 2..p];
      assert forall i :: 0 <= i < |alt| ==> alt[i] == s[2 + i];
      assert forall i :: 0 <= i < |url| ==> url[i] == s[b + 2 + i];
    }
  }

  /** The replacement `<img src="$2" alt="$1" class="content-image" />`. */
  function ImgTag(alt: string, url: string): string
  {
    "<img src=\"" + url + "\" alt=\"" + alt + "\" class=\"content-image\" />"
  }

  /** The image replacement over all of `s`. */
  function ReplaceImages(s: string): (r: string)
    ensures '!' !in s ==> r == s
    decreases |s|
  {
    if s == [] then []
    else match MatchImage(s)
      case Some(m) => ImgTag(m.alt, m.url) + ReplaceImages(s[m.length..])
      case None => [s[0]] + ReplaceImages(s[1..])
  }

  /** The delimiters of an image markdown followed by `rest`, and where they sit. */
  lemma ImageSourceDelimiters(s: string, alt: string, url: string, rest: string)
    requires s == ImageSource(alt, url) + rest
    ensures |s| == |alt| + |url| + 5 + |rest|
    ensures s[0] == '!' && s[1] == '[' && s[2 + |alt|] == ']' && s[3 + |alt|] == '(' && s[4 + |alt| + |url|] == ')'
  {
    assert s == ['!', '['] + alt + [']', '('] + url + [')'] + rest;
  }

  /** The alt text of an image markdown followed by `rest`. */
  lemma ImageSourceAlt(s: string, alt: string, url: string, rest: string)
    requires s == ImageSource(alt, url) + rest
    ensures |alt| + 2 <= |s| && s[2..2 + |alt|] == alt
  {
    assert s == ['!', '['] + alt + ([']', '('] + url + [')'] + rest);
  }

  /** The URL of an image markdown followed by `rest`. */
  lemma ImageSourceUrl(s: string, alt: string, url: string, rest: string)
    requires s == ImageSource(alt, url) + rest
    ensures |alt| + |url| + 4 <= |s| && s[4 + |alt|..4 + |alt| + |url|] == url
  {
    assert s == (['!', '['] + alt + [']', '(']) + url + ([')'] + rest);
  }

  /** Any `![alt](url)` whose alt has no `]` and whose url is non-empty and has no `)` is a match. */
  lemma ImageMatches(alt: string, url: string, rest: string)
    requires ']' !in alt && url != "" && ')' !in url
    ensures MatchImage(ImageSource(alt, url) + rest) == Some(ImageMatch(alt, url, |ImageSource(alt, url)|))
  {
    var s := ImageSource(alt, url) + rest;
    var n, m := |alt|, |url|;
    ImageSourceDelimiters(s, alt, url, rest);
    ImageSourceAlt(s, alt, url, rest);
    ImageSourceUrl(s, alt, url, rest);
    FindCharAfter(s, ']', 2, alt);
    FindCharAfter(s, ')', 4 + n, url);
    MatchImageOf(s, 2 + n, 4 + n + m);
  }

  /** A scan from `i` passes over a segment without `c` and stops at the `c` right after it. */
  lemma FindCharAfter(s: string, c: char, i: nat, part: string)
    requires i + |part| < |s| && s[i..i + |part|] == part && c !in part && s[i + |part|] == c
    ensures FindCharFrom(s, c, i) == Some(i + |part|)
  {
    forall j | i <= j < i + |part|
      ensures s[j] != c
    {
      assert s[j] == part[j - i];
    }
    FindCharFromAt(s, c, i, i + |part|);
  }

  /** Unfolds `MatchImage` once both delimiters have been found. */
  lemma MatchImageOf(s: string, b: nat, p: nat)
    requires 2 <= b && b + 2 < p < |s| && s[0] == '!' && s[1] == '[' && s[b + 1] == '('
    requires FindCharFrom(s, ']', 2) == Some(b) && FindCharFrom(s, ')', b + 2) == Some(p)
    ensures MatchImage(s) == Some(ImageMatch(s[2..b], s[b + 2..p], p + 1))
  {
  }

  /** The image rule: the markdown becomes an `img` tag, and the scan goes on after it. */
  lemma ImageRule(alt: string, url: string, rest: string)
    requires ']' !in alt && url != "" && ')' !in url
    ensures ReplaceImages(ImageSource(alt, url) + rest) == ImgTag(alt, url) + ReplaceImages(rest)
  {
    ImageMatches(alt, url, rest);
    var s := ImageSource(alt, url) + rest;
    assert s[|ImageSource(alt, url)|..] == rest;
  }

  /** Text before the first `!` is copied as it is, and the scan goes on after it. */
  lemma {:induction false} ReplaceImagesAfterPlain(a: string, b: string)
    requires '!' !in a
    ensures ReplaceImages(a + b) == a + ReplaceImages(b)
    decreases |a|
  {
    if a != [] {
      var s, a' := a + b, a[1..];
      assert s[0] == a[0] && s[1..] == a' + b;
      assert a == [a[0]] + a';
      assert '!' !in a';
      ReplaceImagesCopy(s);
      ReplaceImagesAfterPlain(a', b);
    } else {
      assert a + b == b;
    }
  }

  /** At a character other than `!` the image pass copies it. */
  lemma ReplaceImagesCopy(s: string)
    requires s != [] && s[0] != '!'
    ensures ReplaceImages(s) == [s[0]] + ReplaceImages(s[1..])
  {
    assert MatchImage(s) == None;
  }

  // ---- Headings: /^### (.+)$/gm, /^## (.+)$/gm, /^# (.+)$/gm

  /** The first line terminator of `s`. */
  function LineEnd(s: string): (r: Option<nat>)
    ensures r.Some? ==> r.value < |s| && IsLineTerminator(s[r.value])
    ensures r.Some? ==> SingleLine(s[..r.value])
    ensures r.None? <==> SingleLine(s)
    decreases |s|
  {
    if s == [] then None
    else if IsLineTerminator(s[0]) then Some(0)
    else match LineEnd(s[1..])
      case None => None
      case Some(i) =>
        assert s[..i + 1] == [s[0]] + s[1..][..i];
        Some(i + 1)
  }

  /** One line under a heading pattern: a line of `marker` and at least one more character becomes a heading. */
  function ConvertLine(line: string, marker: string, tag: string): string
  {
    if StartsWith(line, marker) && |line| > |marker| then "<" + tag + ">" + line[|marker|..] + "</" + tag + ">"
    else line
  }

  /** One heading replacement over all of `s`, line by line. */
  function ReplaceHeadings(s: string, marker: string, tag: string): (r: string)
    requires marker != []
    ensures marker[0] !in s ==> r == s
    decreases |s|
  {
    match LineEnd(s)
    case None => ConvertLine(s, marker, tag)
    case Some(t) =>
      assert s == s[..t] + [s[t]] + s[t + 1..];
      ConvertLine(s[..t], marker, tag) + [s[t]] + ReplaceHeadings(s[t + 1..], marker, tag)
  }

  /** The three heading passes, `###` first. */
  function Headings(s: string): string
  {
    ReplaceHeadings(ReplaceHeadings(ReplaceHeadings(s, "### ", "h3"), "## ", "h2"), "# ", "h1")
  }

  /** What one line becomes, read off the line directly: the heading level is the marker the line starts with. */
  function HeadingOf(line: string): string
  {
    if StartsWith(line, "### ") && |line| > 4 then "<h3>" + line[4..] + "</h3>"
    else if StartsWith(line, "## ") && |line| > 3 then "<h2>" + line[3..] + "</h2>"
    else if StartsWith(line, "# ") && |line| > 2 then "<h1>" + line[2..] + "</h1>"
    else line
  }

  lemma ConvertLineSingle(line: string, marker: string, tag: string)
    requires SingleLine(line) && SingleLine(tag)
    ensures SingleLine(ConvertLine(line, marker, tag))
  {
    if StartsWith(line, marker) && |line| > |marker| {
      var r := ConvertLine(line, marker, tag);
      var body := line[|marker|..];
      assert r == "<" + tag + ">" + body + "</" + tag + ">";
      forall i | 0 <= i < |r| ensures !IsLineTerminator(r[i]) {
        if i < 1 + |tag| + 1 {
        } else if i < 1 + |tag| + 1 + |body| {
          assert r[i] == body[i - (1 + |tag| + 1)] == line[|marker| + i - (1 + |tag| + 1)];
        } else {
        }
      }
    }
  }

  /** A line that already starts with `<` is left alone by a heading pattern. */
  lemma ConvertTagged(line: string, marker: string, tag: string)
    requires line != [] && line[0] == '<' && marker != [] && marker[0] == '#'
    ensures ConvertLine(line, marker, tag) == line
  {
    assert |marker| <= |line| ==> line[..|marker|][0] == '<';
  }

  /** The three passes on one line agree with the direct reading. */
  lemma ConvertChain(line: string)
    ensures ConvertLine(ConvertLine(ConvertLine(line, "### ", "h3"), "## ", "h2"), "# ", "h1") == HeadingOf(line)
  {
    if StartsWith(line, "### ") && |line| > 4 {
      var l3 := ConvertLine(line, "### ", "h3");
      assert l3 == "<h3>" + line[4..] + "</h3>";
      ConvertTagged(l3, "## ", "h2");
      ConvertTagged(l3, "# ", "h1");
    } else if StartsWith(line, "## ") && |line| > 3 {
      assert ConvertLine(line, "### ", "h3") == line;
      var l2 := ConvertLine(line, "## ", "h2");
      assert l2 == "<h2>" + line[3..] + "</h2>";
      ConvertTagged(l2, "# ", "h1");
    } else {
      assert ConvertLine(line, "### ", "h3") == line;
      assert ConvertLine(line, "## ", "h2") == line;
    }
  }

  /** A heading pass on a single line converts that line. */
  lemma ReplaceHeadingsOfLine(line: string, marker: string, tag: string)
    requires marker != [] && SingleLine(line)
    ensures ReplaceHeadings(line, marker, tag) == ConvertLine(line, marker, tag)
  {
  }

  /** The first terminator after a single line is the one that ends it. */
  lemma LineEndAfter(line: string, c: char, rest: string)
    requires SingleLine(line) && IsLineTerminator(c)
    ensures LineEnd(line + [c] + rest) == Some(|line|)
  {
    var s := line + [c] + rest;
    assert s[|line|] == c;
    assert s[..|line|] == line;
    var r := LineEnd(s);
    assert r.Some?;
    assert r.value >= |line| by {
      assert forall j :: 0 <= j < |line| ==> s[j] == line[j];
    }
    assert r.value <= |line| by {
      assert forall j :: |line| < j <= |s| ==> s[..j][|line|] == c;
    }
  }

  /** A heading pass converts the first line and goes on after its terminator. */
  lemma ReplaceHeadingsStep(line: string, c: char, rest: string, marker: string, tag: string)
    requires marker != [] && SingleLine(line) && IsLineTerminator(c)
    ensures ReplaceHeadings(line + [c] + rest, marker, tag) == ConvertLine(line, marker, tag) + [c] + ReplaceHeadings(rest, marker, tag)
  {
    var s := line + [c] + rest;
    LineEndAfter(line, c, rest);
    assert s[..|line|] == line && s[|line|] == c && s[|line| + 1..] == rest;
  }

  /** A single line under the three heading passes. */
  lemma HeadingsOfLine(line: string)
    requires SingleLine(line)
    ensures Headings(line) == HeadingOf(line)
  {
    var l3 := ConvertLine(line, "### ", "h3");
    ReplaceHeadingsOfLine(line, "### ", "h3");
    ConvertLineSingle(line, "### ", "h3");
    ReplaceHeadingsOfLine(l3, "## ", "h2");
    ConvertLineSingle(l3, "## ", "h2");
    ReplaceHeadingsOfLine(ConvertLine(l3, "## ", "h2"), "# ", "h1");
    ConvertChain(line);
  }

  /**
   * The heading passes work line by line: the first line becomes what `HeadingOf` reads
   * off it, the terminator stays, and the rest is handled the same way.
   */
  lemma HeadingsLineByLine(line: string, c: char, rest: string)
    requires SingleLine(line) && IsLineTerminator(c)
    ensures Headings(line + [c] + rest) == HeadingOf(line) + [c] + Headings(rest)
  {
    var l3 := ConvertLine(line, "### ", "h3");
    var r3 := ReplaceHeadings(rest, "### ", "h3");
    assert ReplaceHeadings(line + [c] + rest, "### ", "h3") == l3 + [c] + r3 by {
      ReplaceHeadingsStep(line, c, rest, "### ", "h3");
    }
    assert SingleLine(l3) by {
      ConvertLineSingle(line, "### ", "h3");
    }
    var l2 := ConvertLine(l3, "## ", "h2");
    var r2 := ReplaceHeadings(r3, "## ", "h2");
    assert ReplaceHeadings(l3 + [c] + r3, "## ", "h2") == l2 + [c] + r2 by {
      ReplaceHeadingsStep(l3, c, r3, "## ", "h2");
    }
    assert SingleLine(l2) by {
      ConvertLineSingle(l3, "## ", "h2");
    }
    ReplaceHeadingsStep(l2, c, r2, "# ", "h1");
    ConvertChain(line);
  }

  // ---- Bold and italic: /\*\*(.+?)\*\*/g, then /\*(.+?)\*/g

  /** The delimiter of a span pass: `**` (width 2) for bold, `*` (width 1) for italic. */
  type Width = w: nat | 1 <= w <= 2 witness 1

  function Delimiter(w: Width): string
  {
    if w == 2 then "**" else "*"
  }

  /** The delimiter of width `w` occurs in `s` at position `i`. */
  predicate StarsAt(s: string, i: nat, w: Width)
  {
    i + w <= |s| && s[i] == '*' && (w == 2 ==> s[i + 1] == '*')
  }

  /**
   * The lazy `(.+?)` followed by the closing delimiter: trying ends `e`, `e + 1`, ... in
   * turn, the first end the delimiter follows, as long as the character before each end
   * tried is not a line terminator.
   */
  function CloseFrom(s: string, w: Width, e: nat): (r: Option<nat>)
    requires 1 <= e
    ensures r.Some? ==> e <= r.value && StarsAt(s, r.value, w)
    decreases |s| + 1 - e
  {
    if e > |s| || IsLineTerminator(s[e - 1]) then None
    else if StarsAt(s, e, w) then Some(e)
    else CloseFrom(s, w, e + 1)
  }

  /**
   * The lazy match is the shortest: the content from `e - 1` to the end found is on one
   * line, and the delimiter occurs at no earlier end.
   */
  lemma {:induction false} CloseFromIsShortest(s: string, w: Width, e: nat)
    requires 1 <= e && CloseFrom(s, w, e).Some?
    ensures SingleLine(s[e - 1..CloseFrom(s, w, e).value])
    ensures forall m :: e <= m < CloseFrom(s, w, e).value ==> !StarsAt(s, m, w)
    decreases |s| + 1 - e
  {
    var r := CloseFrom(s, w, e).value;
    if r != e {
      CloseFromIsShortest(s, w, e + 1);
      var line, rest := s[e - 1..r], s[e..r];
      forall i | 0 <= i < |line| ensures !IsLineTerminator(line[i]) {
        if i > 0 {
          assert line[i] == rest[i - 1];
        }
      }
    }
  }

  /** One span pass over all of `s`: a delimited content becomes `<tag>content</tag>`. */
  function ReplaceSpans(s: string, w: Width, tag: string): string
    decreases |s|
  {
    if s == [] then []
    else
      var close := if StarsAt(s, 0, w) then CloseFrom(s, w, w + 1) else None;
      if close.Some? then Tagged(tag, s[w..close.value]) + ReplaceSpans(s[close.value + w..], w, tag)
      else [s[0]] + ReplaceSpans(s[1..], w, tag)
  }

  /** Text without `*` passes a span pass unchanged. */
  lemma {:induction false} StarlessUnchanged(s: string, w: Width, tag: string)
    requires '*' !in s
    ensures ReplaceSpans(s, w, tag) == s
    decreases |s|
  {
    if s != [] {
      assert !StarsAt(s, 0, w);
      assert '*' !in s[1..];
      StarlessUnchanged(s[1..], w, tag);
    }
  }

  /** The replacement `<tag>$1</tag>`. */
  function Tagged(tag: string, content: string): string
  {
    "<" + tag + ">" + content + "</" + tag + ">"
  }

  /** The two inline passes, bold first. */
  function Inline(s: string): string
  {
    ReplaceSpans(ReplaceSpans(s, 2, "strong"), 1, "em")
  }

  /** The positions of the parts of a delimited content followed by `rest`. */
  lemma SpanParts(c: string, w: Width, rest: string)
    ensures var s := Delimiter(w) + c + Delimiter(w) + rest;
      |s| == w + |c| + w + |rest| && StarsAt(s, 0, w) && StarsAt(s, w + |c|, w) &&
      (forall k :: 0 <= k < |c| ==> s[w + k] == c[k]) &&
      s[w..w + |c|] == c && s[w + |c| + w..] == rest
  {
    var s := Delimiter(w) + c + Delimiter(w) + rest;
    assert s[w..w + |c|] == c;
    assert s[w + |c| + w..] == rest;
  }

  /** A one-line content without `*` closes at its end. */
  lemma {:induction false} CloseAtContentEnd(c: string, w: Width, rest: string, e: nat)
    requires w + 1 <= e <= w + |c| && '*' !in c && SingleLine(c)
    ensures CloseFrom(Delimiter(w) + c + Delimiter(w) + rest, w, e) == Some(w + |c|)
    decreases w + |c| - e
  {
    var s := Delimiter(w) + c + Delimiter(w) + rest;
    assert e <= |s| && s[e - 1] == c[e - 1 - w] by { SpanParts(c, w, rest); }
    assert !IsLineTerminator(c[e - 1 - w]);
    if e < w + |c| {
      assert s[e] == c[e - w] by { SpanParts(c, w, rest); }
      assert c[e - w] in c;
      assert !StarsAt(s, e, w);
      CloseAtContentEnd(c, w, rest, e + 1);
    } else {
      assert StarsAt(s, e, w) by { SpanParts(c, w, rest); }
    }
  }

  /** One step of a span pass where a span opens at the start of `s` and its content ends at `e`. */
  lemma ReplaceSpansOpen(s: string, w: Width, tag: string, e: nat)
    requires StarsAt(s, 0, w) && CloseFrom(s, w, w + 1) == Some(e)
    ensures ReplaceSpans(s, w, tag) == Tagged(tag, s[w..e]) + ReplaceSpans(s[e + w..], w, tag)
  {
    var tail := ReplaceSpans(s[e + w..], w, tag);
    assert ReplaceSpans(s, w, tag) == Tagged(tag, s[w..e]) + tail;
  }

  /** The span rule: a non-empty one-line content without `*` between delimiters becomes `<tag>content</tag>`. */
  lemma SpanRule(c: string, w: Width, tag: string, rest: string)
    requires c != [] && '*' !in c && SingleLine(c)
    ensures ReplaceSpans(Delimiter(w) + c + Delimiter(w) + rest, w, tag) == Tagged(tag, c) + ReplaceSpans(rest, w, tag)
  {
    var s := Delimiter(w) + c + Delimiter(w) + rest;
    SpanParts(c, w, rest);
    CloseAtContentEnd(c, w, rest, w + 1);
    ReplaceSpansOpen(s, w, tag, w + |c|);
  }

  /** A content between delimiters and nothing after. */
  lemma SpanAlone(c: string, w: Width, tag: string)
    requires c != [] && '*' !in c && SingleLine(c)
    ensures ReplaceSpans(Delimiter(w) + c + Delimiter(w), w, tag) == Tagged(tag, c)
  {
    SpanRule(c, w, tag, "");
    assert Delimiter(w) + c + Delimiter(w) + "" == Delimiter(w) + c + Delimiter(w);
    assert Tagged(tag, c) + "" == Tagged(tag, c);
  }

  /** Characters that occur in neither part do not occur in a concatenation. */
  lemma NotInConcat(x: char, a: string, b: string)
    requires x !in a && x !in b
    ensures x !in a + b
  {
    assert forall i :: 0 <= i < |a + b| ==> (a + b)[i] == if i < |a| then a[i] else b[i - |a|];
  }

  /** A span's replacement holds no `*` when its content and tag hold none. */
  lemma TaggedHasNoStar(c: string, tag: string)
    requires '*' !in c && '*' !in tag
    ensures '*' !in Tagged(tag, c)
  {
    NotInConcat('*', "<", tag);
    NotInConcat('*', "<" + tag, ">");
    NotInConcat('*', "<" + tag + ">", c);
    NotInConcat('*', "<" + tag + ">" + c, "</");
    NotInConcat('*', "<" + tag + ">" + c + "</", tag);
    NotInConcat('*', "<" + tag + ">" + c + "</" + tag, ">");
  }

  /** Bold is taken before italic: `**c**` ends as `strong`, never as `em`. */
  lemma BoldIsNeverItalic(c: string)
    requires c != [] && '*' !in c && SingleLine(c)
    ensures Inline("**" + c + "**") == Tagged("strong", c)
  {
    var source := Delimiter(2) + c + Delimiter(2);
    var bold := ReplaceSpans(source, 2, "strong");
    SpanAlone(c, 2, "strong");
    TaggedHasNoStar(c, "strong");
    StarlessUnchanged(bold, 1, "em");
  }

  /** Italic: `*c*` becomes `em` when `c` has no `*`. */
  lemma ItalicRule(c: string)
    requires c != [] && '*' !in c && SingleLine(c)
    ensures Inline("*" + c + "*") == Tagged("em", c)
  {
    var source := Delimiter(1) + c + Delimiter(1);
    NoStarPairInItalic(c);
    SpanAlone(c, 1, "em");
  }

  /** `*c*` with no `*` in `c` holds no two `*` in a row, so the bold pass leaves it. */
  lemma NoStarPairInItalic(c: string)
    requires c != [] && '*' !in c
    ensures ReplaceSpans("*" + c + "*", 2, "strong") == "*" + c + "*"
  {
    var s := "*" + c + "*";
    forall i | 0 <= i < |s| - 1 ensures !(s[i] == '*' && s[i + 1] == '*') {
      if i == 0 {
        assert s[1] == c[0];
      } else {
        assert s[i] == c[i - 1];
      }
    }
    NoStarPairUnchanged(s);
  }

  /** A text with no two `*` in a row is left alone by the bold pass. */
  lemma {:induction false} NoStarPairUnchanged(s: string)
    requires forall i :: 0 <= i < |s| - 1 ==> !(s[i] == '*' && s[i + 1] == '*')
    ensures ReplaceSpans(s, 2, "strong") == s
    decreases |s|
  {
    if s != [] {
      assert !StarsAt(s, 0, 2) by {
        if |s| >= 2 { assert !(s[0] == '*' && s[1] == '*'); }
      }
      NoStarPairUnchanged(s[1..]);
    }
  }

  // ---- Paragraphs: split on "\n\n", wrap, join with "\n"

  /** One chunk: a non-blank chunk that does not start with `<` becomes a trimmed paragraph. */
  function WrapParagraph(p: string): (r: string)
    ensures IsBlank(p) || StartsWith(p, "<") ==> r == p
    ensures !IsBlank(p) && !StartsWith(p, "<") ==>
      r == "<p>" + Trim(p) + "</p>" && !IsWhitespace(r[3]) && !IsWhitespace(r[|r| - 5])
  {
    if Trim(p) != "" && !StartsWith(p, "<") then "<p>" + Trim(p) + "</p>" else p
  }

  function WrapAll(chunks: seq<string>): (r: seq<string>)
    ensures |r| == |chunks|
    ensures forall i :: 0 <= i < |r| ==> r[i] == WrapParagraph(chunks[i])
  {
    if chunks == [] then [] else [WrapParagraph(chunks[0])] + WrapAll(chunks[1..])
  }

  function Paragraphs(s: string): string
  {
    Join(WrapAll(Split(s, "\n\n")), "\n")
  }

  /** The whole rewrite chain, in the order the renderer applies it. */
  function Render(body: string): string
  {
    Paragraphs(Inline(Headings(ReplaceImages(body))))
  }

  /** An empty body renders to nothing. */
  lemma EmptyBodyRendersEmpty()
    ensures Render("") == ""
  {
    assert ReplaceImages("") == "";
    assert Headings("") == "" by {
      assert ConvertLine("", "### ", "h3") == "";
      assert ConvertLine("", "## ", "h2") == "";
      assert ConvertLine("", "# ", "h1") == "";
    }
    assert Inline("") == "";
    assert IndexOf("", "\n\n") == None;
    assert Split("", "\n\n") == [""];
    assert Trim("") == "";
  }

  /** A text with no blank line is a single chunk. */
  lemma SingleChunk(s: string)
    requires !Includes(s, "\n\n")
    ensures Paragraphs(s) == WrapParagraph(s)
  {
    assert Split(s, "\n\n") == [s];
  }

  /** The first blank line of `a + "\n\n" + b` is the one after `a`. */
  lemma FirstBlankLine(a: string, b: string)
    requires !Includes(a, "\n\n") && (a == [] || a[|a| - 1] != '\n')
    ensures IndexOf(a + "\n\n" + b, "\n\n") == Some(|a|)
  {
    var s := a + "\n\n" + b;
    assert OccursAt(s, "\n\n", |a|) by {
      assert s[|a|..|a| + 2] == "\n\n";
    }
    IncludesIffOccurs(a, "\n\n");
    forall j | 0 <= j < |a| ensures !OccursAt(s, "\n\n", j) {
      if j + 1 < |a| {
        assert s[j..j + 2] == a[j..j + 2];
        assert !OccursAt(a, "\n\n", j);
      } else {
        assert s[j] == a[|a| - 1];
      }
    }
    IncludesIffOccurs(s, "\n\n");
  }

  /**
   * The paragraph pass goes chunk by chunk: the first chunk (no blank line in it, not
   * ending in a newline) is wrapped on its own, and the blank line becomes one newline.
   */
  lemma ParagraphStep(a: string, b: string)
    requires !Includes(a, "\n\n") && (a == [] || a[|a| - 1] != '\n')
    ensures Paragraphs(a + "\n\n" + b) == WrapParagraph(a) + "\n" + Paragraphs(b)
  {
    FirstBlankLine(a, b);
    SplitAtFirst(a, b);
    JoinWrapCons(a, Split(b, "\n\n"));
  }

  /** A split whose first separator follows `a` starts with `a` and goes on in `b`. */
  lemma SplitAtFirst(a: string, b: string)
    requires IndexOf(a + "\n\n" + b, "\n\n") == Some(|a|)
    ensures Split(a + "\n\n" + b, "\n\n") == [a] + Split(b, "\n\n")
  {
    var s := a + "\n\n" + b;
    assert s[..|a|] == a && s[|a| + 2..] == b;
  }

  /** Wrapping and joining a list of chunks handles its first chunk on its own. */
  lemma JoinWrapCons(a: string, tail: seq<string>)
    requires |tail| >= 1
    ensures Join(WrapAll([a] + tail), "\n") == WrapParagraph(a) + "\n" + Join(WrapAll(tail), "\n")
  {
    var chunks := [a] + tail;
    assert chunks[1..] == tail;
    var wrapped := WrapAll(chunks);
    assert wrapped[1..] == WrapAll(tail);
  }

  /** Text with none of `!`, `#`, `*` passes the image, heading and inline passes unchanged. */
  lemma UnmarkedTextOnlyGetsParagraphs(s: string)
    requires '!' !in s && '#' !in s && '*' !in s
    ensures Render(s) == Paragraphs(s)
  {
    assert "### "[0] == '#' && "## "[0] == '#' && "# "[0] == '#';
    StarlessUnchanged(Headings(s), 2, "strong");
    StarlessUnchanged(Headings(s), 1, "em");
  }

  /**
   * Nothing is escaped: markup-free text that starts with `<` and holds no blank line
   * reaches the page exactly as written.
   */
  lemma HtmlPassesThrough(s: string)
    requires s != [] && s[0] == '<' && '!' !in s && '#' !in s && '*' !in s && !Includes(s, "\n\n")
    ensures Render(s) == s
  {
    UnmarkedTextOnlyGetsParagraphs(s);
    SingleChunk(s);
    assert StartsWith(s, "<");
  }
}
