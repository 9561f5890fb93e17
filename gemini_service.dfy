/**
 * The input validator: strip code fences from pasted model output, cut out
 * the JSON object, parse it with an injected parser, check the structure
 * and fill in defaults. Every failure surfaces as one fixed message.
 */
module GeminiService {
  import opened Wrappers
  import opened Text
  import opened Json
  import opened Types

  // ---------------------------------------------------------------------
  // cleanJsonString
  // ---------------------------------------------------------------------

  /** Empty input stands for an empty object. */
  function OrEmptyObject(text: string): string {
    if text == "" then "{}" else text
  }

  /** The text with every "```json" and then every remaining "```" removed. */
  function StripFences(text: string): string {
    ReplaceAll(ReplaceAll(text, "```json", ""), "```", "")
  }

  /**
   * The slicing half of cleanJsonString: when an object opener comes before
   * any array opener and a closing brace exists, cut from the first `{`
   * through the last `}` (with JavaScript's substring, which swaps reversed
   * bounds); otherwise keep the text.
   */
  function ExtractObject(cleanText: string): string {
    var jsonStart := IndexOf(cleanText, '{');
    var jsonArrayStart := IndexOf(cleanText, '[');
    if jsonStart != -1 && (jsonArrayStart == -1 || jsonStart < jsonArrayStart) then
      var jsonEnd := LastIndexOf(cleanText, '}');
      if jsonEnd != -1 then JsSubstring(cleanText, jsonStart, jsonEnd + 1) else cleanText
    else cleanText
  }

  /** cleanJsonString: default the input, strip the fences, slice out the object. */
  function CleanJsonString(text: string): string {
    ExtractObject(StripFences(OrEmptyObject(text)))
  }

  /** Empty input is cleaned to the empty object. */
  lemma CleanEmptyInput()
    ensures CleanJsonString("") == "{}"
  {
    assert "```json"[0] !in "{}" && "```"[0] !in "{}";
    ReplaceAllWithout("{}", "```json", "");
    ReplaceAllWithout("{}", "```", "");
    assert StripFences("{}") == "{}";
    assert IndexOf("{}", '{') == 0;
    assert IndexOf("{}", '[') == -1;
    assert LastIndexOf("{}", '}') == 1;
  }

  /** A text that does not start with a backtick keeps its first character in front. */
  lemma StripKeepsHead(t: string)
    requires t != "" && t[0] != '`'
    ensures ReplaceAll(t, "```", "") != "" && ReplaceAll(t, "```", "")[0] == t[0]
  {
    if StartsWith(t, "```") {
      StartsWithHead(t, "```");
    }
    assert ReplaceAll(t, "```", "") == [t[0]] + ReplaceAll(t[1..], "```", "");
  }

  /**
   * After a backtick that does not open a fence, what follows cannot start
   * with two backticks once stripped.
   */
  lemma StripTailNoDouble(s: string)
    requires s != "" && s[0] == '`' && !StartsWith(s, "```")
    ensures !StartsWith(ReplaceAll(s[1..], "```", ""), "``")
  {
    var t := s[1..];
    var rt := ReplaceAll(t, "```", "");
    if t != "" {
      if t[0] != '`' {
        StripKeepsHead(t);
        if |rt| >= 2 {
          assert rt[..2][0] == rt[0];
        }
      } else {
        if |t| >= 2 {
          assert s[..3] == [s[0], t[0], t[1]];
        }
        if |t| >= 3 {
          assert t[..3][1] == t[1];
        }
        var u := t[1..];
        assert rt == "`" + ReplaceAll(u, "```", "");
        if u != "" {
          assert u[0] == t[1];
          StripKeepsHead(u);
          assert rt[1] == u[0];
          if |rt| >= 2 {
            assert rt[..2][1] == rt[1];
          }
        }
      }
    }
  }

  /** Stripping every "```" leaves none behind, not even across the cuts. */
  lemma {:induction false} StripLeavesNoFence(s: string)
    ensures !Contains(ReplaceAll(s, "```", ""), "```")
  {
    var out := ReplaceAll(s, "```", "");
    if s != [] {
      if StartsWith(s, "```") {
        StripLeavesNoFence(s[3..]);
        assert out == ReplaceAll(s[3..], "```", "");
      } else {
        var rest := ReplaceAll(s[1..], "```", "");
        assert out == [s[0]] + rest;
        StripLeavesNoFence(s[1..]);
        if s[0] == '`' {
          StripTailNoDouble(s);
        }
        forall m | 0 <= m <= |out| - 3 ensures !OccursAt("```", out, m) {
          if m == 0 {
            assert out[..3][0] == s[0];
            assert out[1..3] == rest[..2];
          } else {
            if OccursAt("```", out, m) {
              OccursUnshift([s[0]], rest, "```", m);
            }
          }
        }
      }
    }
  }

  /** An index that holds `c` with no `c` before it is the first one. */
  lemma FirstIndex(s: string, c: char, i: int)
    requires 0 <= i < |s| && s[i] == c && c !in s[..i]
    ensures IndexOf(s, c) == i
  {
  }

  /** An index that holds `c` with no `c` after it is the last one. */
  lemma LastIndex(s: string, c: char, j: int)
    requires 0 <= j < |s| && s[j] == c && c !in s[j + 1..]
    ensures LastIndexOf(s, c) == j
  {
  }

  /** A character missing from the first `i` places is first found at `i` or later, if at all. */
  lemma NoneBefore(s: string, c: char, i: int)
    requires 0 <= i <= |s| && c !in s[..i]
    ensures IndexOf(s, c) == -1 || IndexOf(s, c) >= i
  {
    forall t | 0 <= t < i ensures s[t] != c {
      assert s[..i][t] == s[t];
    }
  }

  /** A slice of a text free of `q` is free of `q`. */
  lemma SliceKeepsOut(s: string, a: int, b: int, q: string)
    requires 0 <= a <= b <= |s| && !Contains(s, q)
    ensures !Contains(s[a..b], q)
  {
    var w := s[a..b];
    forall i | 0 <= i <= |w| - |q| ensures !OccursAt(q, w, i) {
      assert a + i <= |s| - |q| && !OccursAt(q, s, a + i);
      var inSlice, inText := w[i..i + |q|], s[a + i..a + i + |q|];
      assert inSlice == inText by {
        forall t | 0 <= t < |q| ensures inSlice[t] == inText[t] {
          assert w[i + t] == s[a + i + t];
        }
      }
    }
  }

  /** ExtractObject's decision, in terms of the three searches it makes. */
  lemma ExtractByIndices(s: string)
    ensures var start := IndexOf(s, '{');
      var arrayStart := IndexOf(s, '[');
      var end := LastIndexOf(s, '}');
      && (start != -1 && (arrayStart == -1 || start < arrayStart) && end != -1 ==>
            ExtractObject(s) == JsSubstring(s, start, end + 1))
      && (!(start != -1 && (arrayStart == -1 || start < arrayStart) && end != -1) ==>
            ExtractObject(s) == s)
  {
  }

  /** Slicing never adds a fence to a fence-free text. */
  lemma ExtractKeepsOut(s: string)
    requires !Contains(s, "```")
    ensures !Contains(ExtractObject(s), "```")
  {
    var jsonStart := IndexOf(s, '{');
    var jsonArrayStart := IndexOf(s, '[');
    var jsonEnd := LastIndexOf(s, '}');
    ExtractByIndices(s);
    if jsonStart != -1 && (jsonArrayStart == -1 || jsonStart < jsonArrayStart) && jsonEnd != -1 {
      if jsonStart <= jsonEnd + 1 {
        SliceKeepsOut(s, jsonStart, jsonEnd + 1, "```");
        assert ExtractObject(s) == s[jsonStart..jsonEnd + 1];
      } else {
        SliceKeepsOut(s, jsonEnd + 1, jsonStart, "```");
        assert ExtractObject(s) == s[jsonEnd + 1..jsonStart];
      }
    }
  }

  /** The cleaned text never holds a code fence, whichever branch produced it. */
  lemma CleanLeavesNoFence(text: string)
    ensures !Contains(CleanJsonString(text), "```")
  {
    StripLeavesNoFence(ReplaceAll(OrEmptyObject(text), "```json", ""));
    ExtractKeepsOut(StripFences(OrEmptyObject(text)));
  }

  /**
   * When the first `{` at `i` comes before any `[` and the last `}` is at
   * `j >= i`, the object is cut out exactly from `i` through `j`.
   */
  lemma ExtractCutsObject(s: string, i: int, j: int)
    requires 0 <= i <= j < |s| && s[i] == '{' && '{' !in s[..i] && '[' !in s[..i]
    requires s[j] == '}' && '}' !in s[j + 1..]
    ensures var r := ExtractObject(s); r == s[i..j + 1] && r[0] == '{' && r[|r| - 1] == '}'
  {
    var start, arrayStart, end := IndexOf(s, '{'), IndexOf(s, '['), LastIndexOf(s, '}');
    FirstIndex(s, '{', i);
    LastIndex(s, '}', j);
    NoneBefore(s, '[', i);
    assert start == i && end == j && (arrayStart == -1 || arrayStart > i);
    ExtractByIndices(s);
    var r := s[i..j + 1];
    assert ExtractObject(s) == JsSubstring(s, i, j + 1) == r;
    assert r[0] == s[i] && r[j - i] == s[j];
  }

  /** When the last `}` comes before the first `{`, the swapped bounds cut out what lies between. */
  lemma ExtractReversedBraces(s: string, i: int, j: int)
    requires 0 <= j < i < |s| && s[i] == '{' && '{' !in s[..i] && '[' !in s[..i]
    requires s[j] == '}' && '}' !in s[j + 1..]
    ensures ExtractObject(s) == s[j + 1..i]
  {
    assert IndexOf(s, '{') == i by { FirstIndex(s, '{', i); }
    assert LastIndexOf(s, '}') == j by { LastIndex(s, '}', j); }
    assert IndexOf(s, '[') == -1 || IndexOf(s, '[') > i by { NoneBefore(s, '[', i); }
    ExtractByIndices(s);
  }

  /** Without both braces the text is kept as it is. */
  lemma ExtractWithoutObject(s: string)
    requires '{' !in s || '}' !in s
    ensures ExtractObject(s) == s
  {
  }

  /** An array opener before every `{` also keeps the text as it is. */
  lemma ExtractArrayFirst(s: string, k: int)
    requires 0 <= k < |s| && s[k] == '[' && '{' !in s[..k]
    ensures ExtractObject(s) == s
  {
    NoneBefore(s, '{', k);
    assert s[k] in s;
  }

  /**
   * Prose around an object is cut away: with no `{` or `[` before the
   * object and no `}` after it, exactly the object is kept.
   */
  lemma ExtractFramed(pre: string, obj: string, post: string)
    requires |obj| >= 2 && obj[0] == '{' && obj[|obj| - 1] == '}'
    requires '{' !in pre && '[' !in pre && '}' !in post
    ensures ExtractObject(pre + obj + post) == obj
  {
    var s := pre + obj + post;
    var i := |pre|;
    var j := |pre| + |obj| - 1;
    assert s[..i] == pre && s[j + 1..] == post;
    assert s[i] == obj[0] && s[j] == obj[|obj| - 1];
    ExtractCutsObject(s, i, j);
    assert s[i..j + 1] == obj;
  }

  /** Pasted text without fences: the object is recovered from the surrounding prose. */
  lemma CleanBareObject(pre: string, obj: string, post: string)
    requires |obj| >= 2 && obj[0] == '{' && obj[|obj| - 1] == '}'
    requires '{' !in pre && '[' !in pre && '}' !in post
    requires '`' !in pre + obj + post
    ensures CleanJsonString(pre + obj + post) == obj
  {
    var s := pre + obj + post;
    assert "```json"[0] !in s && "```"[0] !in s;
    ReplaceAllWithout(s, "```json", "");
    ReplaceAllWithout(s, "```", "");
    ExtractFramed(pre, obj, post);
  }

  /** Removing a backtick pattern copies a backtick-free prefix through unchanged. */
  lemma StripSkipsPlain(u: string, y: string, p: string)
    requires p != "" && p[0] !in u
    ensures ReplaceAll(u + y, p, "") == u + ReplaceAll(y, p, "")
  {
    NoOccurrenceBefore("", u, y, p);
    assert "" + u + y == u + y;
    ReplaceAllSkip(u, y, p, "");
  }

  /** A closing fence followed by text that does not begin with `json` is no opening fence. */
  lemma ClosingFenceNotOpening(trail: string)
    requires '`' !in trail && !StartsWith(trail, "json")
    ensures !Contains("```" + trail, "```json")
  {
    var open, t := "```json", "```" + trail;
    forall m | 0 <= m <= |t| - |open| ensures !OccursAt(open, t, m) {
      var w := t[m..m + 7];
      if m == 0 {
        assert !(forall k | 0 <= k < 4 :: trail[..4][k] == "json"[k]);
        var k :| 0 <= k < 4 && trail[k] != "json"[k];
        assert w[3 + k] == trail[k] && open[3 + k] == "json"[k];
      } else {
        assert w[2] == trail[m - 1];
        assert open[2] == '`';
      }
    }
  }

  /** Inside and after a fenced block free of backticks, the first pass finds no opening fence. */
  lemma OpeningFenceOnlyOnce(mid: string, trail: string)
    requires '`' !in mid && '`' !in trail && !StartsWith(trail, "json")
    ensures ReplaceAll(mid + "```" + trail, "```json", "") == mid + "```" + trail
  {
    var tail := "```" + trail;
    assert mid + "```" + trail == mid + tail;
    StripSkipsPlain(mid, tail, "```json");
    ClosingFenceNotOpening(trail);
    ReplaceAllAbsent(tail, "```json", "");
  }

  /** A pattern right after a prefix without its first character is the first one removed. */
  lemma StripAfterPlain(u: string, p: string, rest: string)
    requires p != "" && p[0] !in u
    ensures ReplaceAll(u + (p + rest), p, "") == u + ReplaceAll(rest, p, "")
  {
    var removed := ReplaceAll(rest, p, "");
    StripSkipsPlain(u, p + rest, p);
    ReplaceAllHead(p, rest, "");
    assert ReplaceAll(p + rest, p, "") == "" + removed == removed;
  }

  /** The first pass removes the opening fence and nothing else. */
  lemma OpeningFenceRemoved(lead: string, mid: string, trail: string)
    requires '`' !in lead && '`' !in mid && '`' !in trail && !StartsWith(trail, "json")
    ensures ReplaceAll(lead + ("```json" + (mid + "```" + trail)), "```json", "") == lead + (mid + "```" + trail)
  {
    var open := "```json";
    var rest := mid + "```" + trail;
    assert open[0] == '`';
    StripAfterPlain(lead, open, rest);
    OpeningFenceOnlyOnce(mid, trail);
    assert ReplaceAll(lead + (open + rest), open, "") == lead + rest;
  }

  /** The second pass removes the closing fence and nothing else. */
  lemma ClosingFenceRemoved(body: string, trail: string)
    requires '`' !in body && '`' !in trail
    ensures ReplaceAll(body + "```" + trail, "```", "") == body + trail
  {
    var close := "```";
    var tail := close + trail;
    assert body + close + trail == body + tail;
    StripSkipsPlain(body, tail, close);
    ReplaceAllHead(close, trail, "");
    assert close[0] !in trail;
    ReplaceAllWithout(trail, close, "");
    assert ReplaceAll(tail, close, "") == trail;
  }

  /** Both passes together leave the fenced text with just its two fences taken out. */
  lemma FencesStripped(lead: string, mid: string, trail: string)
    requires '`' !in lead && '`' !in mid && '`' !in trail && !StartsWith(trail, "json")
    ensures StripFences(lead + ("```json" + (mid + "```" + trail))) == lead + mid + trail
  {
    OpeningFenceRemoved(lead, mid, trail);
    assert lead + (mid + "```" + trail) == lead + mid + "```" + trail;
    ClosingFenceRemoved(lead + mid, trail);
  }

  /**
   * The reply the assistant is told to give: prose, a fenced ```json block
   * holding the object (with more text inside the fence around it), and more
   * prose. It is cleaned back to the object itself, provided the prose holds
   * no backtick, no brace on the wrong side, no `[` before the object, and
   * the text after the closing fence does not begin with `json`.
   */
  lemma CleanFencedObject(lead: string, pre: string, obj: string, post: string, trail: string)
    requires |obj| >= 2 && obj[0] == '{' && obj[|obj| - 1] == '}'
    requires '{' !in lead + pre && '[' !in lead + pre && '}' !in post + trail
    requires '`' !in lead + pre + obj + post + trail
    requires !StartsWith(trail, "json")
    ensures CleanJsonString(lead + "```json" + pre + obj + post + "```" + trail) == obj
  {
    var mid := pre + obj + post;
    var text := lead + ("```json" + (mid + "```" + trail));
    assert text == lead + "```json" + pre + obj + post + "```" + trail;
    assert '`' !in lead && '`' !in mid && '`' !in trail;
    FencesStripped(lead, mid, trail);
    assert lead + mid + trail == (lead + pre) + obj + (post + trail);
    ExtractFramed(lead + pre, obj, post + trail);
  }

  // ---------------------------------------------------------------------
  // parseCardNewsJson
  // ---------------------------------------------------------------------

  /** The one message every parse failure is reported with. */
  const PARSE_FAILURE: string := "변환에 실패했습니다. AI가 써준 내용을 '처음부터 끝까지' 정확히 복사해서 붙여넣었는지 확인해주세요."

  /** Why validation stopped; all of these reach the caller as PARSE_FAILURE. */
  datatype Rejection = InvalidJson | NullAccess | NoSlides | EmptySlides

  /** `v || fallback` for a text field: a non-empty string is kept, anything else gives the fallback. */
  function TextOr(v: Option<JsonValue>, fallback: string): (s: string)
    ensures v.Some? && v.value.JStr? && v.value.s != "" ==> s == v.value.s
    ensures !Truthy(v) ==> s == fallback
  {
    match v
    case Some(JStr(s)) => if s != "" then s else fallback
    case _ => fallback
  }

  /** `slide.pageNumber || index + 1`: a non-zero number is kept, anything else gives the position. */
  function PageNumberOr(v: Option<JsonValue>, index: nat): (n: int)
    ensures v.Some? && v.value.JNum? && v.value.n != 0 ==> n == v.value.n
    ensures !Truthy(v) ==> n == index + 1
  {
    match v
    case Some(JNum(k)) => if k != 0 then k else index + 1
    case _ => index + 1
  }

  /** The string elements of `data.hashtags || []`. */
  function HashtagsOf(v: Option<JsonValue>): (tags: seq<string>)
    ensures !Truthy(v) ==> tags == []
    ensures v.Some? && v.value.JArr? ==> |tags| <= |v.value.items|
    ensures v.Some? && v.value.JArr? ==> forall t | t in tags :: JStr(t) in v.value.items
    ensures v.Some? && v.value.JArr? ==>
      forall k | 0 <= k < |v.value.items| && v.value.items[k].JStr? :: v.value.items[k].s in tags
    ensures v.Some? && v.value.JArr? && (forall k | 0 <= k < |v.value.items| :: v.value.items[k].JStr?) ==>
      tags == seq(|v.value.items|, k requires 0 <= k < |v.value.items| => v.value.items[k].s)
  {
    match v
    case Some(JArr(items)) => StringItems(items)
    case _ => []
  }

  /** The strings of an array, in order; other elements are skipped. */
  function StringItems(items: seq<JsonValue>): (tags: seq<string>)
    ensures |tags| <= |items|
    ensures forall t | t in tags :: JStr(t) in items
    ensures forall k | 0 <= k < |items| && items[k].JStr? :: items[k].s in tags
    ensures (forall k | 0 <= k < |items| :: items[k].JStr?) ==>
      tags == seq(|items|, k requires 0 <= k < |items| => items[k].s)
  {
    if items == [] then []
    else
      var rest := StringItems(items[1..]);
      assert forall k | 1 <= k < |items| :: items[k] == items[1..][k - 1];
      (if items[0].JStr? then [items[0].s] else []) + rest
  }

  /** Keeping the strings commutes with joining arrays: order is kept. */
  lemma {:induction false} StringItemsConcat(a: seq<JsonValue>, b: seq<JsonValue>)
    ensures StringItems(a + b) == StringItems(a) + StringItems(b)
    decreases |a|
  {
    if a == [] {
      assert a + b == b;
    } else {
      assert (a + b)[1..] == a[1..] + b;
      StringItemsConcat(a[1..], b);
    }
  }

  /**
   * `data.themeIndex`, as the theme lookup will later see it: a number is
   * kept, null and booleans read as 0 and 1 there, and absence stays None.
   */
  function ThemeIndexOf(v: Option<JsonValue>): (t: Option<int>)
    ensures v == None ==> t == None
    ensures v.Some? && v.value.JNum? ==> t == Some(v.value.n)
  {
    match v
    case Some(JNum(n)) => Some(n)
    case Some(JNull) => Some(0)
    case Some(JBool(b)) => Some(if b then 1 else 0)
    case _ => None
  }

  /** One validated slide: position-based page number, empty text by default, no styles yet. */
  function NormalizeSlide(item: JsonValue, index: nat): (s: Slide)
    requires item != JNull
    ensures s.headerStyle == None && s.bodyStyle == None
  {
    Slide(
      PageNumberOr(Field(item, "pageNumber"), index),
      TextOr(Field(item, "header"), ""),
      TextOr(Field(item, "body"), ""),
      None, None)
  }

  /** The structural checks, in the order the code makes them. */
  function Validate(data: JsonValue): Result<Deck, Rejection> {
    if data == JNull then Failure(NullAccess)
    else
      var slides := Field(data, "slides");
      if !Truthy(slides) || !slides.value.JArr? then Failure(NoSlides)
      else
        var items := slides.value.items;
        if |items| == 0 then Failure(EmptySlides)
        else if exists k | 0 <= k < |items| :: items[k] == JNull then Failure(NullAccess)
        else
          Success(Deck(
            TextOr(Field(data, "topic"), "제목 없음"),
            TextOr(Field(data, "targetAudience"), "전체"),
            TextOr(Field(data, "tone"), "기본"),
            seq(|items|, k requires 0 <= k < |items| => NormalizeSlide(items[k], k)),
            HashtagsOf(Field(data, "hashtags")),
            ThemeIndexOf(Field(data, "themeIndex"))))
  }

  /**
   * parseCardNewsJson: clean the text, parse it with `jsonParse` (None for
   * text that is not JSON), validate; any failure becomes PARSE_FAILURE.
   */
  function ParseCardNewsJson(input: string, jsonParse: string -> Option<JsonValue>): (r: Result<Deck, string>)
    ensures r.Failure? ==> r.error == PARSE_FAILURE
  {
    match jsonParse(CleanJsonString(input))
    case None => Failure(PARSE_FAILURE)
    case Some(data) =>
      match Validate(data)
      case Failure(_) => Failure(PARSE_FAILURE)
      case Success(deck) => Success(deck)
  }

  /** The slides array of a well-formed input: a non-empty array with no null element. */
  predicate AcceptableSlides(data: JsonValue) {
    && data.JObj? && "slides" in data.fields && data.fields["slides"].JArr?
    && |data.fields["slides"].items| > 0
    && forall k | 0 <= k < |data.fields["slides"].items| :: data.fields["slides"].items[k] != JNull
  }

  /** The structural checks pass exactly for an acceptable slides array. */
  lemma ValidateAccepts(data: JsonValue)
    ensures Validate(data).Success? <==> AcceptableSlides(data)
  {
    if data != JNull && AcceptableSlides(data) {
      var items := data.fields["slides"].items;
      assert Field(data, "slides") == Some(JArr(items));
      assert !exists k | 0 <= k < |items| :: items[k] == JNull;
    }
  }

  /** Parsing fails exactly for non-JSON text and for inputs whose slides are missing, not an array, empty or hold a null. */
  lemma ParseFailsExactly(input: string, jsonParse: string -> Option<JsonValue>)
    ensures ParseCardNewsJson(input, jsonParse).Failure? <==>
      (jsonParse(CleanJsonString(input)).None? || !AcceptableSlides(jsonParse(CleanJsonString(input)).value))
  {
    var parsed := jsonParse(CleanJsonString(input));
    if parsed.Some? {
      ValidateAccepts(parsed.value);
    }
  }

  /**
   * A successful parse keeps every slide, in order, with its truthy fields
   * and the documented defaults for falsy ones.
   */
  lemma ParseKeepsSlides(input: string, jsonParse: string -> Option<JsonValue>, k: nat)
    requires ParseCardNewsJson(input, jsonParse).Success?
    ensures var data := jsonParse(CleanJsonString(input)).value;
      var items := data.fields["slides"].items;
      var deck := ParseCardNewsJson(input, jsonParse).value;
      && AcceptableSlides(data)
      && |deck.slides| == |items|
      && (k < |items| ==>
        var item := items[k];
        var slide := deck.slides[k];
        && (Truthy(Field(item, "pageNumber")) && Field(item, "pageNumber").value.JNum? ==> slide.pageNumber == Field(item, "pageNumber").value.n)
        && (!Truthy(Field(item, "pageNumber")) ==> slide.pageNumber == k + 1)
        && (Truthy(Field(item, "header")) && Field(item, "header").value.JStr? ==> slide.header == Field(item, "header").value.s)
        && (!Truthy(Field(item, "header")) ==> slide.header == "")
        && (Truthy(Field(item, "body")) && Field(item, "body").value.JStr? ==> slide.body == Field(item, "body").value.s)
        && (!Truthy(Field(item, "body")) ==> slide.body == "")
        && slide.headerStyle == None && slide.bodyStyle == None)
  {
    ParseFailsExactly(input, jsonParse);
  }

  /**
   * Deck fields: a non-empty string is kept and a falsy one takes its default;
   * the hashtags are the string elements of the array given; a theme index is
   * kept only when given.
   */
  lemma ParseDeckDefaults(input: string, jsonParse: string -> Option<JsonValue>)
    requires ParseCardNewsJson(input, jsonParse).Success?
    ensures var data := jsonParse(CleanJsonString(input)).value;
      var deck := ParseCardNewsJson(input, jsonParse).value;
      && (Truthy(Field(data, "topic")) && Field(data, "topic").value.JStr? ==> deck.topic == Field(data, "topic").value.s)
      && (Truthy(Field(data, "targetAudience")) && Field(data, "targetAudience").value.JStr? ==>
            deck.targetAudience == Field(data, "targetAudience").value.s)
      && (Truthy(Field(data, "tone")) && Field(data, "tone").value.JStr? ==> deck.tone == Field(data, "tone").value.s)
      && deck.hashtags == HashtagsOf(Field(data, "hashtags"))
      && (!Truthy(Field(data, "topic")) ==> deck.topic == "제목 없음")
      && (!Truthy(Field(data, "targetAudience")) ==> deck.targetAudience == "전체")
      && (!Truthy(Field(data, "tone")) ==> deck.tone == "기본")
      && (!Truthy(Field(data, "hashtags")) ==> deck.hashtags == [])
      && (Field(data, "themeIndex") == None ==> deck.themeIndex == None)
      && (Field(data, "themeIndex").Some? && Field(data, "themeIndex").value.JNum? ==>
            deck.themeIndex == Some(Field(data, "themeIndex").value.n))
  {
  }
}
