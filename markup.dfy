/**
 * The pure half of the card renderer: lightweight markdown to markup, the
 * "already markup" guard and the theme-aware rewrite of bold runs (preview
 * and export variants).
 */
module Markup {
  import opened Wrappers
  import opened Text
  import opened Themes

  // ---------------------------------------------------------------------
  // The lazy pair scanner behind `/open(.*?)close/g`
  // ---------------------------------------------------------------------

  predicate NoLineTerminator(s: string) {
    forall c | c in s :: !IsLineTerminator(c)
  }

  /**
   * The lazy `(.*?)close` part of a match: the shortest run before the next
   * `cd`, which may not cross a line terminator. None when there is no such run.
   */
  function LazyClose(t: string, cd: string): (k: Option<nat>)
    requires cd != ""
    ensures k.Some? ==> OccursAt(cd, t, k.value) && NoLineTerminator(t[..k.value])
    ensures k.Some? ==> forall j | 0 <= j < k.value :: !OccursAt(cd, t, j)
    ensures k.None? ==> forall j | 0 <= j <= |t| - |cd| && OccursAt(cd, t, j) :: !NoLineTerminator(t[..j])
    decreases |t|
  {
    if StartsWith(t, cd) then Some(0)
    else if t == [] || IsLineTerminator(t[0]) then
      assert forall j | 0 < j <= |t| :: t[0] in t[..j];
      None
    else
      var rest := LazyClose(t[1..], cd);
      assert forall j | 0 < j <= |t| - |cd| :: OccursAt(cd, t, j) == OccursAt(cd, t[1..], j - 1);
      assert forall j | 0 < j <= |t| :: t[..j] == [t[0]] + t[1..][..j - 1];
      match rest
      case None => None
      case Some(k) => Some(k + 1)
  }

  /**
   * `s.replace(/od(.*?)cd/g, o + '$1' + c)`: every leftmost non-overlapping
   * `od … cd` pair on one line becomes `o`, the text between, then `c`.
   */
  function ReplacePairs(s: string, od: string, cd: string, o: string, c: string): string
    requires od != "" && cd != ""
    decreases |s|
  {
    if s == [] then []
    else if StartsWith(s, od) then
      match LazyClose(s[|od|..], cd)
      case Some(k) => o + s[|od|..|od| + k] + c + ReplacePairs(s[|od| + k + |cd|..], od, cd, o, c)
      case None => [s[0]] + ReplacePairs(s[1..], od, cd, o, c)
    else [s[0]] + ReplacePairs(s[1..], od, cd, o, c)
  }

  /** Text without an occurrence of the opening delimiter is left unchanged. */
  lemma {:induction false} ReplacePairsWithout(s: string, od: string, cd: string, o: string, c: string)
    requires od != "" && cd != "" && !Contains(s, od)
    ensures ReplacePairs(s, od, cd, o, c) == s
  {
    if s != [] {
      assert !OccursAt(od, s, 0);
      assert !Contains(s[1..], od) by {
        if Contains(s[1..], od) { ContainsTail(s, 1, od); }
      }
      ReplacePairsWithout(s[1..], od, cd, o, c);
    }
  }

  lemma NotContainsHead(s: string, p: string)
    requires p != "" && p[0] !in s
    ensures !Contains(s, p)
  {
    forall i | 0 <= i <= |s| - |p| ensures !OccursAt(p, s, i) {
      assert s[i..i + |p|][0] == s[i];
    }
  }

  /** A character absent from the text and from both replacements is absent from the result. */
  lemma {:induction false} ReplacePairsKeepsOut(s: string, od: string, cd: string, o: string, c: string, x: char)
    requires od != "" && cd != "" && x !in s && x !in o && x !in c
    ensures x !in ReplacePairs(s, od, cd, o, c)
    decreases |s|
  {
    if s != [] {
      if StartsWith(s, od) && LazyClose(s[|od|..], cd).Some? {
        var k := LazyClose(s[|od|..], cd).value;
        var rest := s[|od| + k + |cd|..];
        assert forall y | y in s[|od|..|od| + k] :: y in s;
        assert forall y | y in rest :: y in s;
        ReplacePairsKeepsOut(rest, od, cd, o, c, x);
      } else {
        assert forall y | y in s[1..] :: y in s;
        ReplacePairsKeepsOut(s[1..], od, cd, o, c, x);
      }
    }
  }

  /** When a pair was rewritten, the opening replacement occurs in the result. */
  lemma {:induction false} ReplacePairsChanged(s: string, od: string, cd: string, o: string, c: string)
    requires od != "" && cd != ""
    ensures ReplacePairs(s, od, cd, o, c) != s ==> Contains(ReplacePairs(s, od, cd, o, c), o)
    decreases |s|
  {
    if s != [] {
      var out := ReplacePairs(s, od, cd, o, c);
      if StartsWith(s, od) && LazyClose(s[|od|..], cd).Some? {
        assert OccursAt(o, out, 0);
      } else {
        var rest := ReplacePairs(s[1..], od, cd, o, c);
        assert out == [s[0]] + rest;
        ReplacePairsChanged(s[1..], od, cd, o, c);
        if rest != s[1..] {
          var i :| 0 <= i <= |rest| - |o| && OccursAt(o, rest, i);
          OccursShift([s[0]], rest, o, i);
        } else {
          assert out == s;
        }
      }
    }
  }

  /** The closing delimiter right after a one-line run with no delimiter character ends the lazy match. */
  lemma {:induction false} LazyCloseAfter(x: string, cd: string)
    requires cd != "" && cd[0] !in x && NoLineTerminator(x)
    ensures LazyClose(x + cd, cd) == Some(|x|)
  {
    if x == [] {
      assert x + cd == cd;
    } else {
      assert (x + cd)[0] == x[0];
      assert !StartsWith(x + cd, cd) by {
        if StartsWith(x + cd, cd) { StartsWithHead(x + cd, cd); }
      }
      assert (x + cd)[1..] == x[1..] + cd;
      LazyCloseAfter(x[1..], cd);
    }
  }

  /** One delimited pair on one line becomes one wrapped run. */
  lemma ReplacePairsSingle(x: string, od: string, cd: string, o: string, c: string)
    requires od != "" && cd != "" && cd[0] !in x && NoLineTerminator(x)
    ensures ReplacePairs(od + x + cd, od, cd, o, c) == o + x + c
  {
    var s := od + x + cd;
    assert s[..|od|] == od;
    assert s[|od|..] == x + cd;
    LazyCloseAfter(x, cd);
    assert s[|od|..|od| + |x|] == x;
    assert s[|od| + |x| + |cd|..] == [];
  }

  // ---------------------------------------------------------------------
  // markdownToHtml
  // ---------------------------------------------------------------------

  /** Text in which none of the markdown rewrites can fire. */
  predicate PlainText(s: string) {
    '*' !in s && '_' !in s && '\n' !in s
  }

  /**
   * Lightweight markdown to markup, four global rewrites in this order:
   * newline to `<br>`, `**x**` to bold, `__x__` to underline, `*x*` to italic.
   */
  function MarkdownToHtml(text: string): (html: string)
    ensures '\n' !in html
    ensures PlainText(text) ==> html == text
  {
    if text == "" then ""
    else
      var withBreaks := ReplaceAll(text, "\n", "<br>");
      var bold := ReplacePairs(withBreaks, "**", "**", "<b>", "</b>");
      var underlined := ReplacePairs(bold, "__", "__", "<u>", "</u>");
      var html := ReplacePairs(underlined, "*", "*", "<i>", "</i>");
      MarkdownSteps(text);
      html
  }

  /** The facts behind MarkdownToHtml's contract, step by step. */
  lemma MarkdownSteps(text: string)
    ensures var withBreaks := ReplaceAll(text, "\n", "<br>");
            var bold := ReplacePairs(withBreaks, "**", "**", "<b>", "</b>");
            var underlined := ReplacePairs(bold, "__", "__", "<u>", "</u>");
            var html := ReplacePairs(underlined, "*", "*", "<i>", "</i>");
            && '\n' !in html
            && (PlainText(text) ==> html == text)
  {
    var withBreaks := ReplaceAll(text, "\n", "<br>");
    var bold := ReplacePairs(withBreaks, "**", "**", "<b>", "</b>");
    var underlined := ReplacePairs(bold, "__", "__", "<u>", "</u>");
    ReplaceCharRemoves(text, '\n', "<br>");
    ReplacePairsKeepsOut(withBreaks, "**", "**", "<b>", "</b>", '\n');
    ReplacePairsKeepsOut(bold, "__", "__", "<u>", "</u>", '\n');
    ReplacePairsKeepsOut(underlined, "*", "*", "<i>", "</i>", '\n');
    if PlainText(text) {
      ReplaceAllWithout(text, "\n", "<br>");
      NotContainsHead(text, "**");
      ReplacePairsWithout(text, "**", "**", "<b>", "</b>");
      NotContainsHead(text, "__");
      ReplacePairsWithout(text, "__", "__", "<u>", "</u>");
      NotContainsHead(text, "*");
      ReplacePairsWithout(text, "*", "*", "<i>", "</i>");
    }
  }

  /** Replacing every `c` by text without `c` leaves no `c`. */
  lemma {:induction false} ReplaceCharRemoves(s: string, c: char, r: string)
    requires c !in r
    ensures c !in ReplaceAll(s, [c], r)
  {
    if s != [] {
      if StartsWith(s, [c]) {
        ReplaceCharRemoves(s[1..], c, r);
      } else {
        assert s[..1] == [s[0]];
        ReplaceCharRemoves(s[1..], c, r);
      }
    }
  }

  /** One line of text that none of the markdown rewrites can touch. */
  predicate PlainLine(x: string) {
    PlainText(x) && NoLineTerminator(x)
  }

  /** A bold run over plain text has nothing left for the underline and italic rewrites. */
  lemma BoldRunStable(x: string)
    requires PlainText(x)
    ensures ReplacePairs("<b>" + x + "</b>", "__", "__", "<u>", "</u>") == "<b>" + x + "</b>"
    ensures ReplacePairs("<b>" + x + "</b>", "*", "*", "<i>", "</i>") == "<b>" + x + "</b>"
  {
    var b := "<b>" + x + "</b>";
    assert '_' !in b && '*' !in b;
    NotContainsHead(b, "__");
    ReplacePairsWithout(b, "__", "__", "<u>", "</u>");
    NotContainsHead(b, "*");
    ReplacePairsWithout(b, "*", "*", "<i>", "</i>");
  }

  /** `**x**` becomes a bold run: bold is rewritten before italic. */
  lemma MarkdownBold(x: string)
    requires PlainLine(x)
    ensures MarkdownToHtml("**" + x + "**") == "<b>" + x + "</b>"
  {
    var s := "**" + x + "**";
    assert '\n' !in s;
    ReplaceAllWithout(s, "\n", "<br>");
    ReplacePairsSingle(x, "**", "**", "<b>", "</b>");
    BoldRunStable(x);
  }

  /** `__x__` becomes an underlined run. */
  lemma MarkdownUnderline(x: string)
    requires PlainLine(x)
    ensures MarkdownToHtml("__" + x + "__") == "<u>" + x + "</u>"
  {
    var s := "__" + x + "__";
    var u := "<u>" + x + "</u>";
    ReplaceAllWithout(s, "\n", "<br>");
    NotContainsHead(s, "**");
    ReplacePairsWithout(s, "**", "**", "<b>", "</b>");
    ReplacePairsSingle(x, "__", "__", "<u>", "</u>");
    NotContainsHead(u, "*");
    ReplacePairsWithout(u, "*", "*", "<i>", "</i>");
  }

  lemma NoDoubleStar(x: string)
    requires x != "" && '*' !in x
    ensures !Contains("*" + x + "*", "**")
  {
    var s := "*" + x + "*";
    forall i | 0 <= i <= |s| - 2 ensures !OccursAt("**", s, i) {
      assert s[i..i + 2][0] == s[i] && s[i..i + 2][1] == s[i + 1];
      if i == 0 {
        assert s[1] == x[0];
      } else {
        assert s[i] == x[i - 1];
      }
    }
  }

  /** `*x*` becomes an italic run, including the empty run `**`. */
  lemma MarkdownItalic(x: string)
    requires PlainLine(x)
    ensures MarkdownToHtml("*" + x + "*") == "<i>" + x + "</i>"
  {
    var s := "*" + x + "*";
    ReplaceAllWithout(s, "\n", "<br>");
    if x == "" {
      assert s == "**";
      assert LazyClose(s[2..], "**") == None;
      assert ReplacePairs(s[1..], "**", "**", "<b>", "</b>") == "*";
      assert ReplacePairs(s, "**", "**", "<b>", "</b>") == s;
    } else {
      NoDoubleStar(x);
      ReplacePairsWithout(s, "**", "**", "<b>", "</b>");
    }
    NotContainsHead(s, "__");
    ReplacePairsWithout(s, "__", "__", "<u>", "</u>");
    ReplacePairsSingle(x, "*", "*", "<i>", "</i>");
  }

  // ---------------------------------------------------------------------
  // The "already markup" guard /<\/?[a-z][\s\S]*>/i
  // ---------------------------------------------------------------------

  predicate IsAsciiLetter(c: char) {
    'a' <= c <= 'z' || 'A' <= c <= 'Z'
  }

  /** A tag opener at `i`: `<`, an optional `/`, a letter, and a `>` anywhere after it. */
  predicate TagAt(s: string, i: int) {
    && 0 <= i < |s| && s[i] == '<'
    && (|| (i + 1 < |s| && IsAsciiLetter(s[i + 1]) && '>' in s[i + 2..])
        || (i + 2 < |s| && s[i + 1] == '/' && IsAsciiLetter(s[i + 2]) && '>' in s[i + 3..]))
  }

  /** The guard's `test`: some position starts a tag opener. */
  predicate LooksLikeHtml(s: string) {
    exists i | 0 <= i < |s| :: TagAt(s, i)
  }

  /** Any string containing a complete simple tag such as `<b>` passes the guard. */
  lemma ContainsTagLooksLikeHtml(s: string, tag: string)
    requires |tag| >= 3 && tag[0] == '<' && IsAsciiLetter(tag[1]) && tag[|tag| - 1] == '>'
    requires Contains(s, tag)
    ensures LooksLikeHtml(s)
  {
    var i :| 0 <= i <= |s| - |tag| && OccursAt(tag, s, i);
    assert s[i] == tag[0] && s[i + 1] == tag[1] by {
      assert s[i..i + |tag|][0] == s[i] && s[i..i + |tag|][1] == s[i + 1];
    }
    assert s[i + |tag| - 1] == '>' by { assert s[i..i + |tag|][|tag| - 1] == s[i + |tag| - 1]; }
    assert s[i + 2..][|tag| - 3] == '>';
    assert TagAt(s, i);
  }

  /** Whenever the markdown conversion changes its input, the result passes the guard. */
  lemma MarkdownChanged(text: string)
    ensures MarkdownToHtml(text) != text ==> LooksLikeHtml(MarkdownToHtml(text))
  {
    if text != "" {
      var withBreaks := ReplaceAll(text, "\n", "<br>");
      var bold := ReplacePairs(withBreaks, "**", "**", "<b>", "</b>");
      var underlined := ReplacePairs(bold, "__", "__", "<u>", "</u>");
      var html := ReplacePairs(underlined, "*", "*", "<i>", "</i>");
      assert html == MarkdownToHtml(text);
      if html != underlined {
        ReplacePairsChanged(underlined, "*", "*", "<i>", "</i>");
        ContainsTagLooksLikeHtml(html, "<i>");
      } else if underlined != bold {
        ReplacePairsChanged(bold, "__", "__", "<u>", "</u>");
        ContainsTagLooksLikeHtml(html, "<u>");
      } else if bold != withBreaks {
        ReplacePairsChanged(withBreaks, "**", "**", "<b>", "</b>");
        ContainsTagLooksLikeHtml(html, "<b>");
      } else if withBreaks != text {
        ReplaceAllChanged(text, "\n", "<br>");
        ContainsTagLooksLikeHtml(html, "<br>");
      }
    }
  }

  /**
   * What the editor and the renderer make of stored slide text: markup is
   * kept byte for byte, anything else goes through the markdown conversion.
   */
  function ToEditableHtml(content: string): (html: string)
    ensures LooksLikeHtml(content) ==> html == content
    ensures !LooksLikeHtml(content) ==> html == MarkdownToHtml(content)
    ensures html == content || LooksLikeHtml(html)
  {
    if LooksLikeHtml(content) then content
    else
      MarkdownChanged(content);
      MarkdownToHtml(content)
  }

  /** Converting twice is converting once: stored markup is never converted again. */
  lemma ToEditableHtmlIdempotent(content: string)
    ensures ToEditableHtml(ToEditableHtml(content)) == ToEditableHtml(content)
  {
  }

  // ---------------------------------------------------------------------
  // processHtmlForPreview: the preview branch
  // ---------------------------------------------------------------------

  /** The four bold tags both branches rewrite. */
  predicate IsBoldTag(q: string) {
    q == "<b>" || q == "</b>" || q == "<strong>" || q == "</strong>"
  }

  /** `<span class="cls" style="style">` */
  function ClassSpan(cls: string, style: string): (open: string)
    ensures Contains(open, cls) && Contains(open, style)
  {
    ContainsFramed("<span class=\"", cls, "\" style=\"" + style + "\">");
    assert "<span class=\"" + cls + ("\" style=\"" + style + "\">") == "<span class=\"" + cls + "\" style=\"" + style + "\">";
    ContainsFramed("<span class=\"" + cls + "\" style=\"", style, "\">");
    "<span class=\"" + cls + "\" style=\"" + style + "\">"
  }

  /** `<span style="style">` */
  function StyleSpan(style: string): (open: string)
    ensures Contains(open, style)
  {
    ContainsFramed("<span style=\"", style, "\">");
    "<span style=\"" + style + "\">"
  }

  /** An opening span starts with `<sp`, and markup-free attributes put no other `<` in it. */
  predicate SpanOpenShape(open: string) {
    |open| >= 3 && open[0] == '<' && open[1] == 's' && open[2] == 'p' && '<' !in open[1..]
  }

  lemma ClassSpanShape(cls: string, style: string)
    requires '<' !in cls && '<' !in style
    ensures SpanOpenShape(ClassSpan(cls, style))
  {
    var open := ClassSpan(cls, style);
    var tail := "span class=\"" + cls + "\" style=\"" + style + "\">";
    assert '<' !in "span class=\"" && '<' !in "\" style=\"" && '<' !in "\">";
    assert open[1..] == tail;
  }

  lemma StyleSpanShape(style: string)
    requires '<' !in style
    ensures SpanOpenShape(StyleSpan(style))
  {
    var open := StyleSpan(style);
    var tail := "span style=\"" + style + "\">";
    assert '<' !in "span style=\"" && '<' !in "\">";
    assert open[1..] == tail;
  }

  /**
   * The span that replaces a bold opener in the preview: header runs take
   * the accent class, body runs an inline colour of the highlight.
   */
  function PreviewSpanOpen(theme: Theme, isHeader: bool): (open: string)
    ensures !isHeader ==> Contains(open, "color: " + theme.highlightBg + ";")
    ensures isHeader ==> Contains(open, theme.accent + " inline")
  {
    if isHeader then ClassSpan(theme.accent + " inline", "")
    else ClassSpan("font-bold box-decoration-clone leading-snug", "color: " + theme.highlightBg + ";")
  }

  lemma PreviewSpanOpenShape(theme: Theme, isHeader: bool)
    requires MarkupSafe(theme)
    ensures SpanOpenShape(PreviewSpanOpen(theme, isHeader))
  {
    if isHeader {
      ClassSpanShape(theme.accent + " inline", "");
    } else {
      ClassSpanShape("font-bold box-decoration-clone leading-snug", "color: " + theme.highlightBg + ";");
    }
  }

  /** The preview rewrite: bold openers to spans, bold closers to `</span>`. */
  function PreviewHtml(html: string, theme: Theme, isHeader: bool): string {
    var open := PreviewSpanOpen(theme, isHeader);
    var s1 := ReplaceAll(html, "<b>", open);
    var s2 := ReplaceAll(s1, "</b>", "</span>");
    var s3 := ReplaceAll(s2, "<strong>", open);
    ReplaceAll(s3, "</strong>", "</span>")
  }

  /** No replacement used by either branch can start a bold tag. */
  lemma SpanCannotCreateBold(open: string, q: string)
    requires SpanOpenShape(open) && IsBoldTag(q)
    ensures CannotCreate(q, open) && CannotCreate(q, "</span>")
  {
    if q == "<strong>" {
      assert q[2] != open[2];
      assert q[1] != "</span>"[1];
    } else if q == "</strong>" {
      assert q[1] != open[1];
      assert q[3] != "</span>"[3];
    } else if q == "</b>" {
      assert q[1] != open[1];
      assert q[2] != "</span>"[2];
    } else {
      assert q[1] != open[1];
      assert q[1] != "</span>"[1];
    }
  }

  /** After the preview rewrite no bold tag is left, and none is created. */
  lemma {:induction false} PreviewRemovesBoldTags(html: string, theme: Theme, isHeader: bool, q: string)
    requires MarkupSafe(theme) && IsBoldTag(q)
    ensures !Contains(PreviewHtml(html, theme, isHeader), q)
  {
    var open := PreviewSpanOpen(theme, isHeader);
    PreviewSpanOpenShape(theme, isHeader);
    SpanCannotCreateBold(open, q);
    var s1 := ReplaceAll(html, "<b>", open);
    var s2 := ReplaceAll(s1, "</b>", "</span>");
    var s3 := ReplaceAll(s2, "<strong>", open);
    ReplaceAllCreatesNone(html, "<b>", open, q);
    ReplaceAllCreatesNone(s1, "</b>", "</span>", q);
    ReplaceAllCreatesNone(s2, "<strong>", open, q);
    ReplaceAllCreatesNone(s3, "</strong>", "</span>", q);
  }

  /** The literal tags never overlap one another. */
  lemma TagPairsCannotCreate()
    ensures CannotCreate("<b>", "</b>") && CannotCreate("</b>", "<strong>")
    ensures CannotCreate("<b>", "<strong>") && CannotCreate("</b>", "</strong>")
    ensures CannotCreate("<b>", "</strong>") && CannotCreate("<strong>", "</strong>")
  {
    assert "<b>"[1] != "</b>"[1] && "</b>"[1] != "<strong>"[1];
    assert "<b>"[1] != "<strong>"[1] && "</b>"[2] != "</strong>"[2];
    assert "<b>"[1] != "</strong>"[1] && "<strong>"[1] != "</strong>"[1];
  }

  /** Rewriting a run's opener leaves its text and closer in place. */
  lemma OpenerRewrite(tag: string, x: string, close: string, open: string)
    requires |tag| > 0 && tag[0] == '<' && '<' !in x && CannotCreate(tag, close)
    ensures ReplaceAll(tag + x + close, tag, open) == open + x + close
  {
    var rest := x + close;
    assert tag + x + close == tag + rest;
    ReplaceAllHead(tag, rest, open);
    NoOccurrenceIn("", x, close, tag);
    assert "" + x + close == rest;
    ReplaceAllAbsent(rest, tag, open);
    assert ReplaceAll(tag + rest, tag, open) == open + rest;
    assert open + rest == open + x + close;
  }

  /** Rewriting a run's closer after a span leaves the span and the text in place. */
  lemma CloserRewrite(open: string, x: string, close: string)
    requires SpanOpenShape(open) && '<' !in x && IsBoldTag(close)
    ensures ReplaceAll(open + x + close, close, "</span>") == open + x + "</span>"
  {
    SpanCannotCreateBold(open, close);
    NoOccurrenceBefore(open, x, close, close);
    ReplaceAllSkip(open + x, close, close, "</span>");
    ReplaceAllHead(close, "", "</span>");
    assert close + "" == close;
  }

  /** A rewrite whose pattern cannot occur leaves the run alone. */
  lemma RunUntouched(a: string, x: string, b: string, q: string, r: string)
    requires |q| > 0 && CannotCreate(q, a) && q[0] !in x && CannotCreate(q, b)
    ensures ReplaceAll(a + x + b, q, r) == a + x + b
  {
    NoOccurrenceIn(a, x, b, q);
    ReplaceAllAbsent(a + x + b, q, r);
  }

  /** A `<b>` run in the preview becomes one highlighted span around the same text. */
  lemma PreviewBoldRun(x: string, theme: Theme, isHeader: bool)
    requires MarkupSafe(theme) && '<' !in x
    ensures PreviewHtml("<b>" + x + "</b>", theme, isHeader) == PreviewSpanOpen(theme, isHeader) + x + "</span>"
  {
    var open := PreviewSpanOpen(theme, isHeader);
    PreviewSpanOpenShape(theme, isHeader);
    SpanCannotCreateBold(open, "<strong>");
    SpanCannotCreateBold(open, "</strong>");
    TagPairsCannotCreate();
    OpenerRewrite("<b>", x, "</b>", open);
    CloserRewrite(open, x, "</b>");
    RunUntouched(open, x, "</span>", "<strong>", open);
    RunUntouched(open, x, "</span>", "</strong>", "</span>");
  }

  /** A `<strong>` run in the preview becomes the same highlighted span. */
  lemma PreviewStrongRun(x: string, theme: Theme, isHeader: bool)
    requires MarkupSafe(theme) && '<' !in x
    ensures PreviewHtml("<strong>" + x + "</strong>", theme, isHeader) == PreviewSpanOpen(theme, isHeader) + x + "</span>"
  {
    var open := PreviewSpanOpen(theme, isHeader);
    PreviewSpanOpenShape(theme, isHeader);
    TagPairsCannotCreate();
    RunUntouched("<strong>", x, "</strong>", "<b>", open);
    RunUntouched("<strong>", x, "</strong>", "</b>", "</span>");
    OpenerRewrite("<strong>", x, "</strong>", open);
    CloserRewrite(open, x, "</strong>");
  }

  // ---------------------------------------------------------------------
  // processHtmlForPreview: the export branch
  // ---------------------------------------------------------------------

  /**
   * The span that replaces a bold opener in the exported image: everything
   * inline, since the capture does not see stylesheet classes. A header
   * keeps the accent as a class unless the accent is itself a colour.
   */
  function ExportSpanOpen(theme: Theme, isHeader: bool): (open: string)
    ensures !isHeader ==> Contains(open, "color: " + theme.highlightBg + "; display: inline;")
    ensures isHeader && '#' in theme.accent ==> Contains(open, "color: " + theme.accent + "; display: inline;")
    ensures isHeader && '#' !in theme.accent ==> Contains(open, theme.accent)
  {
    if !isHeader then StyleSpan("color: " + theme.highlightBg + "; display: inline;")
    else if '#' in theme.accent then ClassSpan("", "color: " + theme.accent + "; display: inline;")
    else ClassSpan(theme.accent, "color: ; display: inline;")
  }

  lemma ExportSpanOpenShape(theme: Theme, isHeader: bool)
    requires MarkupSafe(theme)
    ensures SpanOpenShape(ExportSpanOpen(theme, isHeader))
  {
    if !isHeader {
      StyleSpanShape("color: " + theme.highlightBg + "; display: inline;");
    } else if '#' in theme.accent {
      ClassSpanShape("", "color: " + theme.accent + "; display: inline;");
    } else {
      ClassSpanShape(theme.accent, "color: ; display: inline;");
    }
  }

  /** The export rewrite: each balanced bold pair becomes an inline-styled span. */
  function ExportHtml(html: string, theme: Theme, isHeader: bool): string {
    var open := ExportSpanOpen(theme, isHeader);
    var s1 := ReplacePairs(html, "<b>", "</b>", open, "</span>");
    ReplacePairs(s1, "<strong>", "</strong>", open, "</span>")
  }

  /** A bold run within one line becomes one inline-styled span around the same text. */
  lemma ExportBoldRun(x: string, theme: Theme, isHeader: bool)
    requires MarkupSafe(theme) && '<' !in x && NoLineTerminator(x)
    ensures ExportHtml("<b>" + x + "</b>", theme, isHeader) == ExportSpanOpen(theme, isHeader) + x + "</span>"
    ensures ExportHtml("<strong>" + x + "</strong>", theme, isHeader) == ExportSpanOpen(theme, isHeader) + x + "</span>"
  {
    var open := ExportSpanOpen(theme, isHeader);
    var out := open + x + "</span>";
    ExportSpanOpenShape(theme, isHeader);
    SpanCannotCreateBold(open, "<strong>");
    TagPairsCannotCreate();
    ReplacePairsSingle(x, "<b>", "</b>", open, "</span>");
    NoOccurrenceIn(open, x, "</span>", "<strong>");
    ReplacePairsWithout(out, "<strong>", "</strong>", open, "</span>");
    NoOccurrenceIn("<strong>", x, "</strong>", "<b>");
    ReplacePairsWithout("<strong>" + x + "</strong>", "<b>", "</b>", open, "</span>");
    ReplacePairsSingle(x, "<strong>", "</strong>", open, "</span>");
  }

  /** Both branches of processHtmlForPreview; empty markup renders as nothing. */
  function ProcessHtmlForPreview(html: string, theme: Theme, isHeader: bool, forExport: bool): string {
    if html == "" then ""
    else if forExport then ExportHtml(html, theme, isHeader)
    else PreviewHtml(html, theme, isHeader)
  }

  /** Text without any markup is shown exactly as written, in both branches. */
  lemma ProcessWithoutMarkup(html: string, theme: Theme, isHeader: bool, forExport: bool)
    requires '<' !in html
    ensures ProcessHtmlForPreview(html, theme, isHeader, forExport) == html
  {
    assert "<b>"[0] == '<' && "</b>"[0] == '<' && "<strong>"[0] == '<' && "</strong>"[0] == '<';
    if forExport {
      NotContainsHead(html, "<b>");
      ReplacePairsWithout(html, "<b>", "</b>", ExportSpanOpen(theme, isHeader), "</span>");
      NotContainsHead(html, "<strong>");
      ReplacePairsWithout(html, "<strong>", "</strong>", ExportSpanOpen(theme, isHeader), "</span>");
    } else {
      ReplaceAllWithout(html, "<b>", PreviewSpanOpen(theme, isHeader));
      ReplaceAllWithout(html, "</b>", "</span>");
      ReplaceAllWithout(html, "<strong>", PreviewSpanOpen(theme, isHeader));
      ReplaceAllWithout(html, "</strong>", "</span>");
    }
  }
  /** On screen, none of the four bold tags survives the rewrite, whatever the card holds. */
  lemma ScreenRenderHasNoBoldTags(html: string, theme: Theme, isHeader: bool, q: string)
    requires MarkupSafe(theme) && IsBoldTag(q)
    ensures !Contains(ProcessHtmlForPreview(html, theme, isHeader, false), q)
  {
    if html != "" {
      PreviewRemovesBoldTags(html, theme, isHeader, q);
    } else {
      assert |q| > 0;
    }
  }

  /**
   * End to end: slide text `**x**` is converted from markdown by the guard
   * and shown as the theme's highlight span around `x`.
   */
  lemma RenderMarkdownBold(x: string, theme: Theme, isHeader: bool)
    requires PlainLine(x) && '<' !in x && MarkupSafe(theme)
    ensures ProcessHtmlForPreview(ToEditableHtml("**" + x + "**"), theme, isHeader, false)
      == PreviewSpanOpen(theme, isHeader) + x + "</span>"
  {
    assert '<' !in "**" + x + "**";
    assert !LooksLikeHtml("**" + x + "**");
    MarkdownBold(x);
    PreviewBoldRun(x, theme, isHeader);
  }
}
