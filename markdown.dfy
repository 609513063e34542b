/**
 * getMarkdownPreview: a plain-text excerpt of a post's markdown. The markdown
 * is rendered to HTML by `marked` (a parameter here), the tags are stripped,
 * six character entities are decoded, runs of whitespace collapse to one space,
 * the ends are trimmed, and the text is cut to maxLength characters plus "...".
 */
module Markdown {
  import opened Wrappers

  const DefaultMaxLength := 200
  const Ellipsis := "..."

  /** A character `\s` matches and `trim` removes: ECMAScript's WhiteSpace and LineTerminator. */
  predicate IsSpace(c: char) {
    || c == ' ' || c == '\t' || c == '\n' || c == '\U{B}' || c == '\U{C}' || c == '\r'
    || c == '\U{A0}' || c == '\U{1680}' || ('\U{2000}' <= c <= '\U{200A}')
    || c == '\U{2028}' || c == '\U{2029}' || c == '\U{202F}' || c == '\U{205F}'
    || c == '\U{3000}' || c == '\U{FEFF}'
  }

  // ---------------------------------------------------------------------------
  // .replace(/<[^>]*>/g, '')

  /** The position of the first `c` in `s`. */
  function IndexOf(s: string, c: char): (i: nat)
    requires c in s
    ensures i < |s| && s[i] == c && c !in s[..i]
  {
    if s[0] == c then 0 else 1 + IndexOf(s[1..], c)
  }

  /**
   * Removes every match of `<[^>]*>`, scanning left to right: a `<` starts a tag
   * that ends at the first `>` after it; a `<` with no `>` after it stays.
   */
  function StripTags(s: string): (r: string)
    ensures |r| <= |s|
    // text without a `<` holds no tag and comes through unchanged
    ensures '<' !in s ==> r == s
    decreases |s|
  {
    if s == [] then []
    else if s[0] == '<' && '>' in s then StripTags(s[IndexOf(s, '>') + 1..])
    else [s[0]] + StripTags(s[1..])
  }

  /** `a` is `b` with some characters deleted: the rest keep their order. */
  predicate IsSubsequence(a: string, b: string)
    decreases |b|
  {
    a == [] || (b != [] && ((a[0] == b[0] && IsSubsequence(a[1..], b[1..])) || IsSubsequence(a, b[1..])))
  }

  lemma {:induction false} SubsequenceOfSuffix(a: string, b: string, i: nat)
    requires i <= |b| && IsSubsequence(a, b[i..])
    ensures IsSubsequence(a, b)
    decreases i
  {
    if i > 0 {
      assert b[i..] == b[1..][i - 1..];
      SubsequenceOfSuffix(a, b[1..], i - 1);
    }
  }

  /** Stripping only deletes characters: what is left is a subsequence of the input. */
  lemma {:induction false} StripTagsOnlyDeletes(s: string)
    ensures IsSubsequence(StripTags(s), s)
    decreases |s|
  {
    if s == [] {
    } else if s[0] == '<' && '>' in s {
      var k := IndexOf(s, '>') + 1;
      StripTagsOnlyDeletes(s[k..]);
      SubsequenceOfSuffix(StripTags(s), s, k);
    } else {
      var r := StripTags(s);
      StripTagsOnlyDeletes(s[1..]);
      assert r[0] == s[0] && r[1..] == StripTags(s[1..]);
    }
  }

  /** Every character of the stripped text occurs in the input. */
  lemma {:induction false} StripTagsKeepsOnlyInputChars(s: string)
    ensures forall k :: 0 <= k < |StripTags(s)| ==> StripTags(s)[k] in s
    decreases |s|
  {
    if s == [] {
    } else if s[0] == '<' && '>' in s {
      var rest := s[IndexOf(s, '>') + 1..];
      StripTagsKeepsOnlyInputChars(rest);
      forall k | 0 <= k < |StripTags(s)| ensures StripTags(s)[k] in s {
        assert StripTags(s)[k] in rest;
      }
    } else {
      StripTagsKeepsOnlyInputChars(s[1..]);
      forall k | 0 <= k < |StripTags(s)| ensures StripTags(s)[k] in s {
        if k > 0 {
          assert StripTags(s)[k] == StripTags(s[1..])[k - 1];
          assert StripTags(s)[k] in s[1..];
        }
      }
    }
  }

  /**
   * One tag is removed whole and nothing else: text before the first `<` is
   * kept, and stripping goes on after the `>` that closes the tag.
   */
  lemma StripTagsRemovesOneTag(x: string, y: string, z: string)
    requires '<' !in x && '>' !in y
    ensures StripTags(x + ['<'] + y + ['>'] + z) == x + StripTags(z)
  {
    var w := ['<'] + y + ['>'] + z;
    assert x + ['<'] + y + ['>'] + z == x + w;
    StripLeadingTag(y, z);
    StripTagsKeepsPlainPrefix(x, w);
  }

  /** A prefix without `<` is kept as it is, and stripping goes on after it. */
  lemma {:induction false} StripTagsKeepsPlainPrefix(x: string, w: string)
    requires '<' !in x
    ensures StripTags(x + w) == x + StripTags(w)
    decreases |x|
  {
    if x == [] {
      assert x + w == w;
    } else {
      var c, rest := x[0], x[1..];
      calc {
        StripTags(x + w);
        { assert x + w == [c] + (rest + w); }
        StripTags([c] + (rest + w));
        { StripTagsKeepsPlainHead(c, rest + w); }
        [c] + StripTags(rest + w);
        { StripTagsKeepsPlainPrefix(rest, w); }
        [c] + (rest + StripTags(w));
        { assert x == [c] + rest; }
        x + StripTags(w);
      }
    }
  }

  /** A first character other than `<` is kept. */
  lemma StripTagsKeepsPlainHead(c: char, rest: string)
    requires c != '<'
    ensures StripTags([c] + rest) == [c] + StripTags(rest)
  {
    assert ([c] + rest)[1..] == rest;
  }

  /** A tag at the very start is dropped up to its first `>`. */
  lemma StripLeadingTag(y: string, z: string)
    requires '>' !in y
    ensures StripTags(['<'] + y + ['>'] + z) == StripTags(z)
  {
    var s := ['<'] + y + ['>'] + z;
    var i := |y| + 1;
    assert s[i] == '>';
    assert s[..i] == ['<'] + y;
    var k := IndexOf(s, '>');
    assert k == i by {
      assert '>' !in s[..i];
      assert s[i] in s[..i + 1];
    }
    assert s[i + 1..] == z;
  }

  /** No `<` is followed, anywhere later, by a `>`: nothing tag-like is left. */
  predicate NoTag(t: string) {
    forall i, j :: 0 <= i < j < |t| && t[i] == '<' ==> t[j] != '>'
  }

  /** After stripping, no `<` … `>` pair remains. */
  lemma {:induction false} StripTagsLeavesNoTag(s: string)
    ensures NoTag(StripTags(s))
    decreases |s|
  {
    if s == [] {
    } else if s[0] == '<' && '>' in s {
      StripTagsLeavesNoTag(s[IndexOf(s, '>') + 1..]);
    } else {
      StripTagsLeavesNoTag(s[1..]);
      StripTagsKeepsOnlyInputChars(s[1..]);
      if s[0] == '<' {
        assert '>' !in s[1..];
      }
      NoTagCons(s[0], StripTags(s[1..]));
    }
  }

  /** Putting a character in front keeps NoTag, unless it is a `<` and a `>` follows. */
  lemma NoTagCons(c: char, rest: string)
    requires NoTag(rest)
    requires c == '<' ==> '>' !in rest
    ensures NoTag([c] + rest)
  {
    var t := [c] + rest;
    forall i, j | 0 <= i < j < |t| && t[i] == '<' ensures t[j] != '>' {
      assert t[j] == rest[j - 1];
      if i > 0 {
        assert t[i] == rest[i - 1];
      }
    }
  }

  // ---------------------------------------------------------------------------
  // .replace(/&lt;/g, '<') and the other entity replacements

  /** Replaces every occurrence of `pat`, scanning left to right without overlap; replacements are not rescanned. */
  function ReplaceAll(s: string, pat: string, rep: string): (r: string)
    requires pat != []
    // text without the pattern's first character has no occurrence and is unchanged
    ensures pat[0] !in s ==> r == s
    // a replacement no longer than its pattern never lengthens the text
    ensures |rep| <= |pat| ==> |r| <= |s|
    decreases |s|
  {
    if |s| < |pat| then s
    else if s[..|pat|] == pat then rep + ReplaceAll(s[|pat|..], pat, rep)
    else [s[0]] + ReplaceAll(s[1..], pat, rep)
  }

  /** The first four replacements: the space and the markup entities, `&amp;` last among them. */
  function DecodeMarkupEntities(s: string): (r: string)
    ensures |r| <= |s|
    ensures '&' !in s ==> r == s
  {
    ReplaceAll(ReplaceAll(ReplaceAll(ReplaceAll(s, "&nbsp;", " "), "&lt;", "<"), "&gt;", ">"), "&amp;", "&")
  }

  /** The last two replacements: the quote entities, decoded after `&amp;`. */
  function DecodeQuoteEntities(s: string): (r: string)
    ensures |r| <= |s|
    ensures '&' !in s ==> r == s
  {
    ReplaceAll(ReplaceAll(s, "&quot;", "\""), "&#39;", "'")
  }

  /** The six entity replacements, in the order they are applied. */
  function DecodeEntities(s: string): (r: string)
    // every entity is longer than the character it stands for
    ensures |r| <= |s|
    // text without an ampersand holds no entity and is unchanged
    ensures '&' !in s ==> r == s
  {
    DecodeQuoteEntities(DecodeMarkupEntities(s))
  }

  /** A pattern is a prefix of `[c] + t` exactly when it starts with `c` and the rest is a prefix of `t`. */
  lemma PrefixOfCons(c: char, t: string, pat: string)
    requires pat != []
    ensures pat <= [c] + t <==> pat[0] == c && pat[1..] <= t
  {
    if pat <= [c] + t {
      assert pat[1..] == ([c] + t)[1..|pat|];
      assert ([c] + t)[1..|pat|] == t[..|pat| - 1];
    }
    if pat[0] == c && pat[1..] <= t {
      assert pat == [c] + pat[1..];
      assert ([c] + t)[..|pat|] == [c] + t[..|pat| - 1];
    }
  }

  /** A lead character that does not start the pattern is kept, and the rest has no occurrence. */
  lemma ReplaceAllLeadKept(c: char, t: string, pat: string, rep: string)
    requires pat != [] && pat[0] !in t && !(pat <= [c] + t)
    ensures ReplaceAll([c] + t, pat, rep) == [c] + t
  {
    assert ([c] + t)[1..] == t;
  }

  /** The first four passes turn `&amp;` before text without `&` into a single `&`. */
  lemma AmpersandPasses(t: string)
    requires '&' !in t
    ensures DecodeMarkupEntities("&amp;" + t) == "&" + t
  {
    var s := "&amp;" + t;
    var tail := "amp;" + t;
    var more := "mp;" + t;
    assert s == ['&'] + tail && tail == ['a'] + more;
    assert '&' !in tail;
    PrefixOfCons('&', tail, "&nbsp;");
    PrefixOfCons('a', more, "nbsp;");
    ReplaceAllLeadKept('&', tail, "&nbsp;", " ");
    PrefixOfCons('&', tail, "&lt;");
    PrefixOfCons('a', more, "lt;");
    ReplaceAllLeadKept('&', tail, "&lt;", "<");
    PrefixOfCons('&', tail, "&gt;");
    PrefixOfCons('a', more, "gt;");
    ReplaceAllLeadKept('&', tail, "&gt;", ">");
    assert s[..5] == "&amp;" && s[5..] == t;
  }

  /** A lone `&` before text without `&` that names neither quote entity survives the last two passes. */
  lemma LoneAmpersandKept(t: string)
    requires '&' !in t
    requires !("quot;" <= t) && !("#39;" <= t)
    ensures DecodeQuoteEntities("&" + t) == "&" + t
  {
    PrefixOfCons('&', t, "&quot;");
    ReplaceAllLeadKept('&', t, "&quot;", "\"");
    PrefixOfCons('&', t, "&#39;");
    ReplaceAllLeadKept('&', t, "&#39;", "'");
  }

  /**
   * `&amp;` before text that is not itself an entity name decodes to `&` once:
   * it is decoded after `&lt;` and `&gt;`, so `&amp;lt;` stays `&lt;`.
   */
  lemma EscapedAmpersandDecodedOnce(t: string)
    requires '&' !in t
    requires !("quot;" <= t) && !("#39;" <= t)
    ensures DecodeEntities("&amp;" + t) == "&" + t
  {
    AmpersandPasses(t);
    LoneAmpersandKept(t);
  }

  /** The escaped form `&amp;lt;` of the text `&lt;` comes out as `&lt;`, not as `<`. */
  lemma EscapedEntityDecodedOnce()
    ensures DecodeEntities("&amp;lt;") == "&lt;"
  {
    var t := "lt;";
    assert "&amp;lt;" == "&amp;" + t;
    assert "&lt;" == "&" + t;
    EscapedAmpersandDecodedOnce(t);
  }

  /** `&quot;` is decoded after `&amp;`, so its escaped form `&amp;quot;` is decoded twice, to `"`. */
  lemma EscapedQuoteDecodedTwice(t: string)
    requires '&' !in t
    ensures DecodeEntities("&amp;quot;" + t) == "\"" + t
  {
    var u := "quot;" + t;
    assert "&amp;quot;" + t == "&amp;" + u;
    AmpersandPasses(u);
    assert "&" + u == "&quot;" + t;
    QuoteDecoded(t);
  }

  /** `&quot;` then text without `&` decodes to `"` then that text. */
  lemma QuoteDecoded(t: string)
    requires '&' !in t
    ensures DecodeQuoteEntities("&quot;" + t) == "\"" + t
  {
    ReplaceAllAtHead("&quot;", "\"", t);
    assert '&' !in "\"" + t;
  }

  /** `&#39;` is decoded after `&amp;`, so its escaped form `&amp;#39;` is decoded twice, to `'`. */
  lemma EscapedApostropheDecodedTwice(t: string)
    requires '&' !in t
    ensures DecodeEntities("&amp;#39;" + t) == "'" + t
  {
    var u := "#39;" + t;
    assert "&amp;#39;" + t == "&amp;" + u;
    AmpersandPasses(u);
    assert "&" + u == "&#39;" + t;
    ApostropheDecoded(t);
  }

  /** `&#39;` then text without `&` decodes to `'` then that text. */
  lemma ApostropheDecoded(t: string)
    requires '&' !in t
    ensures DecodeQuoteEntities("&#39;" + t) == "'" + t
  {
    QuoteKeepsApostrophe(t);
    ReplaceAllAtHead("&#39;", "'", t);
  }

  /** `&quot;` does not occur in `&#39;` followed by text without `&`. */
  lemma QuoteKeepsApostrophe(t: string)
    requires '&' !in t
    ensures ReplaceAll("&#39;" + t, "&quot;", "\"") == "&#39;" + t
  {
    var u := "#39;" + t;
    assert "&#39;" + t == ['&'] + u;
    assert u == ['#'] + ("39;" + t);
    PrefixOfCons('#', "39;" + t, "quot;");
    PrefixOfCons('&', u, "&quot;");
    ReplaceAllLeadKept('&', u, "&quot;", "\"");
  }

  /** An occurrence at the very start is replaced, and text without the pattern's first character follows unchanged. */
  lemma ReplaceAllAtHead(pat: string, rep: string, t: string)
    requires pat != [] && pat[0] !in t
    ensures ReplaceAll(pat + t, pat, rep) == rep + t
  {
    assert (pat + t)[..|pat|] == pat && (pat + t)[|pat|..] == t;
  }

  // ---------------------------------------------------------------------------
  // .replace(/\s+/g, ' ') and .trim()

  /** `s` without its leading whitespace (trimStart). */
  function DropLeadingSpaces(s: string): (r: string)
    ensures |r| <= |s| && r == s[|s| - |r|..]
    ensures r == [] || !IsSpace(r[0])
    ensures s != [] && IsSpace(s[0]) ==> |r| < |s|
  {
    if s != [] && IsSpace(s[0]) then DropLeadingSpaces(s[1..]) else s
  }

  /** `s` without its trailing whitespace (trimEnd). */
  function DropTrailingSpaces(s: string): (r: string)
    ensures |r| <= |s| && r == s[..|r|]
    ensures r == [] || !IsSpace(r[|r| - 1])
  {
    if s != [] && IsSpace(s[|s| - 1]) then DropTrailingSpaces(s[..|s| - 1]) else s
  }

  /** Replaces each maximal run of whitespace with one space. */
  function CollapseSpaces(s: string): (r: string)
    ensures |r| <= |s|
    // text without whitespace comes through unchanged
    ensures (forall i :: 0 <= i < |s| ==> !IsSpace(s[i])) ==> r == s
    decreases |s|
  {
    if s == [] then []
    else if IsSpace(s[0]) then [' '] + CollapseSpaces(DropLeadingSpaces(s))
    else [s[0]] + CollapseSpaces(s[1..])
  }

  /** `s.trim()`. */
  function Trim(s: string): (r: string)
    ensures |r| <= |s|
    // no whitespace is left at either end
    ensures r == [] || (!IsSpace(r[0]) && !IsSpace(r[|r| - 1]))
    // text that neither starts nor ends with whitespace comes through unchanged
    ensures s == [] || (!IsSpace(s[0]) && !IsSpace(s[|s| - 1])) ==> r == s
  {
    DropTrailingSpaces(DropLeadingSpaces(s))
  }

  /** Every whitespace character is a plain space, and no two of them are adjacent. */
  predicate SingleSpaced(t: string) {
    && (forall i :: 0 <= i < |t| && IsSpace(t[i]) ==> t[i] == ' ')
    && (forall i :: 0 <= i < |t| - 1 && IsSpace(t[i]) ==> !IsSpace(t[i + 1]))
  }

  /** Single-spaced, with no whitespace at either end. */
  predicate Tidy(t: string) {
    SingleSpaced(t) && (t != [] ==> !IsSpace(t[0]) && !IsSpace(t[|t| - 1]))
  }

  lemma {:induction false} CollapseSpacesSingleSpaced(s: string)
    ensures SingleSpaced(CollapseSpaces(s))
    ensures s != [] ==> CollapseSpaces(s) != [] && (IsSpace(CollapseSpaces(s)[0]) <==> IsSpace(s[0]))
    decreases |s|
  {
    if s == [] {
    } else if IsSpace(s[0]) {
      var rest := DropLeadingSpaces(s);
      CollapseSpacesSingleSpaced(rest);
      var t := CollapseSpaces(s);
      var u := CollapseSpaces(rest);
      assert t == [' '] + u;
      forall i | 0 <= i < |t| - 1 && IsSpace(t[i]) ensures !IsSpace(t[i + 1]) {
        assert t[i + 1] == u[i];
        if i > 0 {
          assert t[i] == u[i - 1];
        }
      }
      forall i | 0 <= i < |t| && IsSpace(t[i]) ensures t[i] == ' ' {
        if i > 0 {
          assert t[i] == u[i - 1];
        }
      }
    } else {
      CollapseSpacesSingleSpaced(s[1..]);
      var t := CollapseSpaces(s);
      var u := CollapseSpaces(s[1..]);
      assert t == [s[0]] + u;
      forall i | 0 <= i < |t| - 1 && IsSpace(t[i]) ensures !IsSpace(t[i + 1]) {
        assert i > 0;
        assert t[i] == u[i - 1] && t[i + 1] == u[i];
      }
      forall i | 0 <= i < |t| && IsSpace(t[i]) ensures t[i] == ' ' {
        assert i > 0;
        assert t[i] == u[i - 1];
      }
    }
  }

  /** A contiguous piece of a single-spaced text is single-spaced. */
  lemma SingleSpacedSlice(t: string, a: nat, b: nat)
    requires a <= b <= |t|
    requires SingleSpaced(t)
    ensures SingleSpaced(t[a..b])
  {
    var u := t[a..b];
    forall i | 0 <= i < |u| - 1 && IsSpace(u[i]) ensures !IsSpace(u[i + 1]) {
      assert u[i] == t[a + i] && u[i + 1] == t[a + i + 1];
    }
    forall i | 0 <= i < |u| && IsSpace(u[i]) ensures u[i] == ' ' {
      assert u[i] == t[a + i];
    }
  }

  /** Trimming a single-spaced text leaves it tidy. */
  lemma TrimSingleSpacedTidy(c: string)
    requires SingleSpaced(c)
    ensures Tidy(Trim(c))
  {
    var l := DropLeadingSpaces(c);
    SingleSpacedSlice(c, |c| - |l|, |c|);
    var r := DropTrailingSpaces(l);
    SingleSpacedSlice(l, 0, |r|);
    if r != [] {
      assert r[0] == l[0];
    }
  }

  /** Collapsing then trimming leaves a tidy text: no edge whitespace, no run of two or more. */
  lemma CollapseThenTrimTidy(s: string)
    ensures Tidy(Trim(CollapseSpaces(s)))
  {
    CollapseSpacesSingleSpaced(s);
    TrimSingleSpacedTidy(CollapseSpaces(s));
  }

  /** The text content of rendered HTML: tags stripped, entities decoded, whitespace collapsed and trimmed. */
  function CleanText(html: string): (t: string)
    ensures Tidy(t)
  {
    CollapseThenTrimTidy(DecodeEntities(StripTags(html)));
    Trim(CollapseSpaces(DecodeEntities(StripTags(html))))
  }

  // ---------------------------------------------------------------------------
  // Truncation

  /** `substring` clamps a negative end to 0. */
  function CutPoint(maxLength: int): nat {
    if maxLength < 0 then 0 else maxLength
  }

  /** `text.length > maxLength ? text.substring(0, maxLength) + '...' : text`. */
  function Truncate(text: string, maxLength: int): (r: string)
    // short enough: returned whole, with no ellipsis
    ensures |text| <= maxLength ==> r == text
    // too long: the first maxLength characters, then "..."
    ensures |text| > maxLength ==>
      |r| == CutPoint(maxLength) + |Ellipsis|
      && r[..CutPoint(maxLength)] == text[..CutPoint(maxLength)]
      && r[CutPoint(maxLength)..] == Ellipsis
    ensures |r| <= CutPoint(maxLength) + |Ellipsis|
  {
    if |text| > maxLength then text[..CutPoint(maxLength)] + Ellipsis else text
  }

  /**
   * getMarkdownPreview(content, maxLength = 200). `marked` is the renderer; None
   * stands for a render that throws, after which the raw content is cut instead.
   */
  function GetMarkdownPreview(marked: string -> Option<string>, content: string, maxLength: int := DefaultMaxLength)
    : (r: string)
    ensures content == "" ==> r == ""
    ensures content != "" && marked(content).Some? ==> r == Truncate(CleanText(marked(content).value), maxLength)
    ensures content != "" && marked(content).None? ==> r == Truncate(content, maxLength)
    ensures |r| <= CutPoint(maxLength) + |Ellipsis|
  {
    if content == "" then ""
    else match marked(content)
      case Some(htmlContent) => Truncate(CleanText(htmlContent), maxLength)
      case None => Truncate(content, maxLength)
  }

  /**
   * A preview of rendered content is the whole tidy text when it fits, and
   * otherwise a prefix of that tidy text followed by "...".
   */
  lemma RenderedPreviewIsTidyText(marked: string -> Option<string>, content: string, maxLength: int)
    requires content != "" && marked(content).Some?
    ensures var text := CleanText(marked(content).value);
            var r := GetMarkdownPreview(marked, content, maxLength);
      Tidy(text)
      && (|text| <= maxLength ==> r == text && Tidy(r))
      && (|text| > maxLength ==> r == text[..CutPoint(maxLength)] + Ellipsis)
  {
    var text := CleanText(marked(content).value);
    var r := GetMarkdownPreview(marked, content, maxLength);
    if |text| > maxLength {
      assert r == r[..CutPoint(maxLength)] + r[CutPoint(maxLength)..];
    }
  }
}
