/**
 * The article card of the public list (components/content/ContentCard.tsx): the path it
 * links to and the plain-text excerpt it shows under the title.
 */
module ContentCard {
  import opened Text
  import SiteLayout

  /** The card's link: `/articles/` followed by the article id. */
  function LinkPath(id: string): (path: string)
    ensures |path| == 10 + |id| && path[10..] == id
    ensures StartsWith(path, "/articles/")
  {
    var prefix := "/articles/";
    var path := prefix + id;
    assert path[..10] == prefix && path[10..] == id;
    path
  }

  /** Distinct articles get distinct links: the id is read back from the path. */
  lemma LinkPathInjective(a: string, b: string)
    requires LinkPath(a) == LinkPath(b)
    ensures a == b
  {
    assert LinkPath(a)[10..] == a && LinkPath(b)[10..] == b;
  }

  /** Following a card highlights the Articles entry of the navigation bar. */
  lemma LinkHighlightsArticles(isAuthenticated: bool, id: string)
    ensures SiteLayout.Nav(isAuthenticated, LinkPath(id)).articlesActive
  {
    var path := LinkPath(id);
    assert path[..9] == path[..10][..9] == "/articles";
  }

  /** The markdown marks the excerpt drops: `#`, `*`, `_` and the backtick. */
  predicate IsMark(c: char)
  {
    c == '#' || c == '*' || c == '_' || c == '`'
  }

  /** `s.replace(/[#*_`]/g, '')`: every mark removed, every other character kept in order. */
  function StripMarks(s: string): (r: string)
    ensures |r| <= |s|
    ensures forall i :: 0 <= i < |r| ==> !IsMark(r[i])
    ensures forall c :: !IsMark(c) ==> multiset(r)[c] == multiset(s)[c]
    ensures forall c :: IsMark(c) ==> multiset(r)[c] == 0
    decreases |s|
  {
    if s == [] then []
    else
      assert s == [s[0]] + s[1..];
      var rest := StripMarks(s[1..]);
      if IsMark(s[0]) then rest else [s[0]] + rest
  }

  /** The stripped text is the original with characters left out. */
  lemma {:induction false} StripMarksIsSubsequence(s: string)
    ensures IsSubsequence(StripMarks(s), s)
    decreases |s|
  {
    if s != [] {
      var rest := StripMarks(s[1..]);
      StripMarksIsSubsequence(s[1..]);
      if IsMark(s[0]) {
        if rest != [] {
          assert IsSubsequence(rest, s[1..]);
        }
      } else {
        assert ([s[0]] + rest)[1..] == rest;
      }
    }
  }

  /** Text without marks is left as it is. */
  lemma {:induction false} StripMarksOfUnmarked(s: string)
    requires forall i :: 0 <= i < |s| ==> !IsMark(s[i])
    ensures StripMarks(s) == s
    decreases |s|
  {
    if s != [] {
      StripMarksOfUnmarked(s[1..]);
      assert s == [s[0]] + s[1..];
    }
  }

  /** The number of characters the excerpt is cut from. */
  const ExcerptSource: nat := 200

  /** `content.body.substring(0, 200).replace(/[#*_`]/g, '').trim()` */
  function Excerpt(body: string): (r: string)
    ensures |r| <= ExcerptSource
    ensures r != [] ==> !IsWhitespace(r[0]) && !IsWhitespace(r[|r| - 1])
  {
    Trim(StripMarks(body[..if |body| < ExcerptSource then |body| else ExcerptSource]))
  }

  /**
   * The excerpt is at most 200 characters long, holds no mark, neither starts nor ends with
   * whitespace, and is the first 200 characters of the body with characters left out (the
   * cut comes before the stripping).
   */
  lemma ExcerptShape(body: string)
    ensures var e := Excerpt(body);
      |e| <= 200 &&
      (forall i :: 0 <= i < |e| ==> !IsMark(e[i])) &&
      (e != [] ==> !IsWhitespace(e[0]) && !IsWhitespace(e[|e| - 1])) &&
      IsSubsequence(e, body[..if |body| < 200 then |body| else 200])
  {
    var head := body[..if |body| < 200 then |body| else 200];
    var stripped := StripMarks(head);
    var e := Trim(stripped);
    TrimKeepsUnmarked(stripped);
    TrimIsSubsequence(stripped);
    StripMarksIsSubsequence(head);
    SubsequenceTransitive(e, stripped, head);
  }

  /** `trim()` of a text without marks has none. */
  lemma TrimKeepsUnmarked(s: string)
    requires forall i :: 0 <= i < |s| ==> !IsMark(s[i])
    ensures var e := Trim(s); forall i :: 0 <= i < |e| ==> !IsMark(e[i])
  {
    var e := Trim(s);
    var k := TrimOffset(s);
    forall i | 0 <= i < |e| ensures !IsMark(e[i]) {
      assert e[i] == s[k + i];
    }
  }

  /** `trim()` only leaves characters out. */
  lemma TrimIsSubsequence(s: string)
    ensures IsSubsequence(Trim(s), s)
  {
    var k := TrimOffset(s);
    SliceIsSubsequence(s, k, k + |Trim(s)|);
  }

  /** A short body without marks or surrounding whitespace is its own excerpt. */
  lemma PlainShortBodyIsItsExcerpt(body: string)
    requires |body| <= 200 && forall i :: 0 <= i < |body| ==> !IsMark(body[i])
    requires body == [] || (!IsWhitespace(body[0]) && !IsWhitespace(body[|body| - 1]))
    ensures Excerpt(body) == body
  {
    assert body[..|body|] == body;
    StripMarksOfUnmarked(body);
    TrimOfTrimmed(body);
  }

  /** Taking the excerpt of an excerpt changes nothing. */
  lemma ExcerptIdempotent(body: string)
    ensures Excerpt(Excerpt(body)) == Excerpt(body)
  {
    ExcerptShape(body);
    PlainShortBodyIsItsExcerpt(Excerpt(body));
  }
}
