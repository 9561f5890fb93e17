/**
 * The deck controller: it owns the parsed deck, the index of the slide on
 * screen and the batch-download flag, and implements the page's handlers.
 * Randomness, the clock, image capture and archiving are passed in.
 */
module App {
  import opened Wrappers
  import opened Text
  import opened Types
  import opened Json
  import opened GeminiService
  import opened Markup
  import opened Editor

  const BLANK_ALERT: string := "내용을 붙여넣어주세요!"
  const SINGLE_DOWNLOAD_ALERT: string := "이미지 저장에 실패했습니다."
  const BATCH_DOWNLOAD_ALERT: string := "전체 이미지 저장에 실패했습니다."
  const ARCHIVE_FOLDER: string := "card-news"

  /** Characters `String.prototype.trim` removes: white space and line terminators. */
  predicate IsJsWhitespace(c: char) {
    || c == '\t' || c == '\n' || c == '\U{000B}' || c == '\U{000C}' || c == '\r' || c == ' '
    || c == '\U{00A0}' || c == '\U{1680}' || ('\U{2000}' <= c <= '\U{200A}')
    || c == '\U{2028}' || c == '\U{2029}' || c == '\U{202F}' || c == '\U{205F}' || c == '\U{3000}' || c == '\U{FEFF}'
  }

  /** `!input.trim()`: the input is empty once trimmed. */
  predicate IsBlank(input: string) {
    forall c | c in input :: IsJsWhitespace(c)
  }

  /** A freshly parsed deck keeps its theme index, or takes the random roll when it has none. */
  function WithTheme(deck: Deck, roll: int): (d: Deck)
    ensures d.themeIndex.Some?
    ensures deck.themeIndex.None? ==> d.themeIndex == Some(roll)
    ensures deck.themeIndex.Some? ==> d == deck
    ensures d.slides == deck.slides
  {
    if deck.themeIndex.None? then deck.(themeIndex := Some(roll)) else deck
  }

  /** The deck shown after a parse of non-blank input: the parsed deck, or none on failure. */
  function ParsedDeck(input: string, jsonParse: string -> Option<JsonValue>, roll: int): Option<Deck> {
    match ParseCardNewsJson(input, jsonParse)
    case Success(deck) => Some(WithTheme(deck, roll))
    case Failure(_) => None
  }

  /** Every parsed deck holds at least one slide. */
  lemma ParsedDeckNonEmpty(input: string, jsonParse: string -> Option<JsonValue>, roll: int)
    ensures ParsedDeck(input, jsonParse, roll).Some? ==> |ParsedDeck(input, jsonParse, roll).value.slides| > 0
  {
    if ParseCardNewsJson(input, jsonParse).Success? {
      ParseKeepsSlides(input, jsonParse, 0);
    }
  }

  // ---------------------------------------------------------------------
  // Capture and archive collaborators
  // ---------------------------------------------------------------------

  type Bytes = seq<bv8>

  /**
   * Rendering one card to an image: the element may be missing, the
   * renderer may throw, or it yields PNG data and a blob (which may be null).
   */
  datatype Capture = NoElement | CaptureFails | Captured(png: Bytes, blobProduced: bool)

  /** A file handed to the browser for saving. */
  datatype Download = Download(fileName: string, data: Bytes)

  /** One archive entry and the archive that is saved. */
  datatype Entry = Entry(name: string, data: Bytes)
  datatype Archive = Archive(fileName: string, folder: string, entries: seq<Entry>)

  /** `slide-(i+1).png` for the card at position `i`. */
  function SlideFileName(i: nat): string {
    "slide-" + NatToString(i + 1) + ".png"
  }

  /** `card-news-(timestamp).zip`. */
  function ArchiveName(now: nat): string {
    "card-news-" + NatToString(now) + ".zip"
  }

  /** `card-news-(i+1).png` for the single-card download. */
  function SingleFileName(i: nat): string {
    "card-news-" + NatToString(i + 1) + ".png"
  }

  predicate Succeeds(c: Capture) {
    c.Captured? && c.blobProduced
  }

  /** Some card among the first `n` fails to render. */
  predicate AnyThrows(capture: nat -> Capture, n: nat) {
    exists i | 0 <= i < n :: capture(i).CaptureFails?
  }

  /** The positions among the first `n` whose capture yields a blob, in visiting order. */
  function BatchIndices(capture: nat -> Capture, n: nat): (idx: seq<nat>)
    ensures |idx| <= n
  {
    if n == 0 then [] else BatchIndices(capture, n - 1) + (if Succeeds(capture(n - 1)) then [n - 1] else [])
  }

  /** The archive entries the loop collects from the first `n` cards. */
  function BatchEntries(capture: nat -> Capture, n: nat): (entries: seq<Entry>)
    ensures |entries| == |BatchIndices(capture, n)|
  {
    if n == 0 then []
    else
      var c := capture(n - 1);
      BatchEntries(capture, n - 1) + (if Succeeds(c) then [Entry(SlideFileName(n - 1), c.png)] else [])
  }

  /** Each entry is named after the card it came from and carries that card's image. */
  lemma {:induction false} BatchEntriesNamed(capture: nat -> Capture, n: nat)
    ensures forall k | 0 <= k < |BatchEntries(capture, n)| ::
      var i := BatchIndices(capture, n)[k];
      Succeeds(capture(i)) && BatchEntries(capture, n)[k] == Entry(SlideFileName(i), capture(i).png)
  {
    if n > 0 {
      BatchEntriesNamed(capture, n - 1);
    }
  }

  /** The positions visited are increasing and all below `n`, and every successful card is among them. */
  lemma {:induction false} BatchIndicesIncreasing(capture: nat -> Capture, n: nat)
    ensures forall a, b | 0 <= a < b < |BatchIndices(capture, n)| :: BatchIndices(capture, n)[a] < BatchIndices(capture, n)[b]
    ensures forall k | 0 <= k < |BatchIndices(capture, n)| :: BatchIndices(capture, n)[k] < n
    ensures forall i | 0 <= i < n && Succeeds(capture(i)) :: i in BatchIndices(capture, n)
  {
    if n > 0 {
      BatchIndicesIncreasing(capture, n - 1);
    }
  }

  /** When every card yields a blob, there is one entry per card, in order. */
  lemma {:induction false} BatchAllCaptured(capture: nat -> Capture, n: nat)
    requires forall i | 0 <= i < n :: Succeeds(capture(i))
    ensures BatchIndices(capture, n) == seq(n, i => i)
    ensures |BatchEntries(capture, n)| == n
  {
    if n > 0 {
      BatchAllCaptured(capture, n - 1);
      assert Succeeds(capture(n - 1));
      assert seq(n, i => i) == seq(n - 1, i => i) + [n - 1];
    }
  }

  /** No two entries share a name, so none overwrites another in the archive. */
  lemma BatchNamesDistinct(capture: nat -> Capture, n: nat)
    ensures forall a, b | 0 <= a < b < |BatchEntries(capture, n)| :: BatchEntries(capture, n)[a].name != BatchEntries(capture, n)[b].name
  {
    BatchEntriesNamed(capture, n);
    BatchIndicesIncreasing(capture, n);
    var entries := BatchEntries(capture, n);
    var idx := BatchIndices(capture, n);
    forall a, b | 0 <= a < b < |entries| ensures entries[a].name != entries[b].name {
      if entries[a].name == entries[b].name {
        FramedInjective("slide-", NatToString(idx[a] + 1), NatToString(idx[b] + 1), ".png");
        NatToStringInjective(idx[a] + 1, idx[b] + 1);
      }
    }
  }

  // ---------------------------------------------------------------------
  // Slide edits
  // ---------------------------------------------------------------------

  /** `{ ...slide, [field]: value }` for the two text fields. */
  function SetField(s: Slide, field: SlideField, value: string): (r: Slide)
    ensures field == HeaderField ==> r.header == value && r.body == s.body
    ensures field == BodyField ==> r.body == value && r.header == s.header
    ensures r.pageNumber == s.pageNumber && r.headerStyle == s.headerStyle && r.bodyStyle == s.bodyStyle
  {
    if field == HeaderField then s.(header := value) else s.(body := value)
  }

  /**
   * What the card's update does to the slide as the page wires it: the
   * handler takes the header markup as the property name and the body
   * markup as the value, and drops both styles. Only a header reading
   * exactly "header" or "body" reaches a field the slide has.
   */
  function AsWiredSlide(s: Slide, u: EditorUpdate): Slide {
    if u.header == "header" then s.(header := u.body)
    else if u.header == "body" then s.(body := u.body)
    else s
  }

  /** As wired, an ordinary edit leaves the slide exactly as it was. */
  lemma AsWiredDropsEdits(s: Slide, u: EditorUpdate)
    requires u.header != "header" && u.header != "body"
    ensures AsWiredSlide(s, u) == s
  {
  }

  /** A concrete case: making the cover title bold is lost. */
  lemma AsWiredLosesBoldTitle()
    ensures var s := Slide(1, "Hi", "", None, None);
      var u := EditorUpdate("<b>Hi</b>", "", DefaultHeaderStyle(true), DEFAULT_BODY_STYLE);
      AsWiredSlide(s, u).header == "Hi" && AsWiredSlide(s, u).header != u.header
  {
    assert "<b>Hi</b>" != "header" && "<b>Hi</b>" != "body" by {
      assert |"<b>Hi</b>"| != |"header"| && |"<b>Hi</b>"| != |"body"|;
    }
  }

  /** What the card's update evidently means: store both buffers and both styles. */
  function EditedSlide(s: Slide, u: EditorUpdate): (r: Slide)
    ensures r.pageNumber == s.pageNumber
    ensures r.header == u.header && r.body == u.body
    ensures r.headerStyle == Some(u.headerStyle) && r.bodyStyle == Some(u.bodyStyle)
  {
    s.(header := u.header, body := u.body, headerStyle := Some(u.headerStyle), bodyStyle := Some(u.bodyStyle))
  }

  /**
   * Storing an edit and seeding the editor from the stored slide gives the
   * editor back what it sent, whenever its buffers are in editable form
   * (as every seeded buffer is).
   */
  lemma EditRoundTrip(s: Slide, u: EditorUpdate)
    requires ToEditableHtml(u.header) == u.header && ToEditableHtml(u.body) == u.body
    ensures var r := EditedSlide(s, u);
      && ToEditableHtml(r.header) == u.header && ToEditableHtml(r.body) == u.body
      && (if r.headerStyle.Some? then r.headerStyle.value else DefaultHeaderStyle(r.IsCover())) == u.headerStyle
      && (if r.bodyStyle.Some? then r.bodyStyle.value else DEFAULT_BODY_STYLE) == u.bodyStyle
  {
  }

  // ---------------------------------------------------------------------
  // The controller
  // ---------------------------------------------------------------------

  class AppState {
    var cardData: Option<Deck>
    var currentSlideIndex: nat
    var isDownloading: bool

    /** The index points at a slide of the deck, and is 0 when there is no deck. */
    predicate Valid()
      reads this
    {
      && (cardData.Some? ==> 0 < |cardData.value.slides| && currentSlideIndex < |cardData.value.slides|)
      && (cardData.None? ==> currentSlideIndex == 0)
    }

    /** The slide on screen. */
    function CurrentSlide(): (s: Slide)
      reads this
      requires Valid() && cardData.Some?
      ensures s in cardData.value.slides
    {
      cardData.value.slides[currentSlideIndex]
    }

    constructor()
      ensures cardData == None && currentSlideIndex == 0 && !isDownloading
      ensures Valid()
    {
      cardData := None;
      currentSlideIndex := 0;
      isDownloading := false;
    }

    /**
     * handleParse: blank input only raises an alert; otherwise the old deck
     * is dropped and the index reset before parsing, and the parsed deck
     * (with a theme index from `roll` if it had none) replaces it.
     */
    method HandleParse(input: string, jsonParse: string -> Option<JsonValue>, roll: int) returns (alert: Option<string>)
      requires Valid() && 0 <= roll <= 99
      modifies this
      ensures Valid()
      ensures isDownloading == old(isDownloading)
      ensures IsBlank(input) ==>
        cardData == old(cardData) && currentSlideIndex == old(currentSlideIndex) && alert == Some(BLANK_ALERT)
      ensures !IsBlank(input) ==>
        && currentSlideIndex == 0
        && cardData == ParsedDeck(input, jsonParse, roll)
        && (cardData.None? <==> ParseCardNewsJson(input, jsonParse).Failure?)
        && (cardData.None? ==> alert == Some(PARSE_FAILURE))
        && (cardData.Some? ==> alert == None && cardData.value.themeIndex.Some?)
    {
      if IsBlank(input) {
        return Some(BLANK_ALERT);
      }
      cardData := None;
      currentSlideIndex := 0;
      var parsed := ParseCardNewsJson(input, jsonParse);
      ParsedDeckNonEmpty(input, jsonParse, roll);
      match parsed {
        case Success(deck) =>
          cardData := Some(WithTheme(deck, roll));
          alert := None;
        case Failure(message) =>
          alert := Some(message);
      }
    }

    /** nextSlide: advance unless on the last slide or without a deck. */
    method NextSlide()
      requires Valid()
      modifies this
      ensures Valid()
      ensures cardData == old(cardData) && isDownloading == old(isDownloading)
      ensures currentSlideIndex ==
        if cardData.Some? && old(currentSlideIndex) < |cardData.value.slides| - 1 then old(currentSlideIndex) + 1
        else old(currentSlideIndex)
    {
      if cardData.Some? && currentSlideIndex < |cardData.value.slides| - 1 {
        currentSlideIndex := currentSlideIndex + 1;
      }
    }

    /** prevSlide: step back unless on the first slide. */
    method PrevSlide()
      requires Valid()
      modifies this
      ensures Valid()
      ensures cardData == old(cardData) && isDownloading == old(isDownloading)
      ensures currentSlideIndex == if old(currentSlideIndex) > 0 then old(currentSlideIndex) - 1 else 0
    {
      if currentSlideIndex > 0 {
        currentSlideIndex := currentSlideIndex - 1;
      }
    }

    /** shuffleTheme: only the deck's theme index changes, to the roll. */
    method ShuffleTheme(roll: int)
      requires Valid() && 0 <= roll <= 99
      modifies this
      ensures Valid()
      ensures currentSlideIndex == old(currentSlideIndex) && isDownloading == old(isDownloading)
      ensures old(cardData).None? ==> cardData == None
      ensures old(cardData).Some? ==> cardData == Some(old(cardData).value.(themeIndex := Some(roll)))
    {
      if cardData.Some? {
        cardData := Some(cardData.value.(themeIndex := Some(roll)));
      }
    }

    /** handleUpdateSlide: replace one text field of the slide on screen; nothing else changes. */
    method HandleUpdateSlide(field: SlideField, value: string)
      requires Valid()
      modifies this
      ensures Valid()
      ensures currentSlideIndex == old(currentSlideIndex) && isDownloading == old(isDownloading)
      ensures old(cardData).None? ==> cardData == None
      ensures old(cardData).Some? ==>
        var deck := old(cardData).value;
        cardData == Some(deck.(slides := deck.slides[currentSlideIndex := SetField(deck.slides[currentSlideIndex], field, value)]))
    {
      if cardData.Some? {
        var deck := cardData.value;
        var newSlides := deck.slides[currentSlideIndex := SetField(deck.slides[currentSlideIndex], field, value)];
        cardData := Some(deck.(slides := newSlides));
      }
    }

    /** The card's update as the page wires it (see AsWiredSlide). */
    method OnUpdateAsWired(u: EditorUpdate)
      requires Valid()
      modifies this
      ensures Valid()
      ensures currentSlideIndex == old(currentSlideIndex) && isDownloading == old(isDownloading)
      ensures old(cardData).None? ==> cardData == None
      ensures old(cardData).Some? ==>
        var deck := old(cardData).value;
        cardData == Some(deck.(slides := deck.slides[currentSlideIndex := AsWiredSlide(deck.slides[currentSlideIndex], u)]))
    {
      if u.header == "header" {
        HandleUpdateSlide(HeaderField, u.body);
      } else if u.header == "body" {
        HandleUpdateSlide(BodyField, u.body);
      } else if cardData.Some? {
        var deck := cardData.value;
        cardData := Some(deck.(slides := deck.slides[currentSlideIndex := deck.slides[currentSlideIndex]]));
      }
    }

    /** The card's update as evidently intended: the slide on screen takes both buffers and both styles. */
    method ApplyEdit(u: EditorUpdate)
      requires Valid()
      modifies this
      ensures Valid()
      ensures currentSlideIndex == old(currentSlideIndex) && isDownloading == old(isDownloading)
      ensures old(cardData).None? ==> cardData == None
      ensures old(cardData).Some? ==>
        var deck := old(cardData).value;
        cardData == Some(deck.(slides := deck.slides[currentSlideIndex := EditedSlide(deck.slides[currentSlideIndex], u)]))
    {
      if cardData.Some? {
        var deck := cardData.value;
        cardData := Some(deck.(slides := deck.slides[currentSlideIndex := EditedSlide(deck.slides[currentSlideIndex], u)]));
      }
    }

    /**
     * handleDownloadCurrent: a missing element does nothing, a failed
     * capture raises an alert, otherwise the card is saved as
     * `card-news-(index+1).png`.
     */
    method HandleDownloadCurrent(capture: Capture) returns (download: Option<Download>, alert: Option<string>)
      ensures capture.NoElement? ==> download == None && alert == None
      ensures capture.CaptureFails? ==> download == None && alert == Some(SINGLE_DOWNLOAD_ALERT)
      ensures capture.Captured? ==>
        download == Some(Download(SingleFileName(currentSlideIndex), capture.png)) && alert == None
    {
      match capture {
        case NoElement =>
          download, alert := None, None;
        case CaptureFails =>
          download, alert := None, Some(SINGLE_DOWNLOAD_ALERT);
        case Captured(png, _) =>
          download, alert := Some(Download(SingleFileName(currentSlideIndex), png)), None;
      }
    }

    /**
     * handleDownloadAll: capture the cards one by one, add an entry for each
     * card that yields a blob, then save one archive. A failed capture, or
     * a failure while archiving, aborts with an alert and saves nothing.
     * The flag is up for the whole run and down afterwards.
     */
    method HandleDownloadAll(capture: nat -> Capture, now: nat, archiveFails: bool)
      returns (saved: Option<Archive>, alert: Option<string>)
      modifies this
      ensures cardData == old(cardData) && currentSlideIndex == old(currentSlideIndex)
      ensures cardData.None? ==> isDownloading == old(isDownloading) && saved == None && alert == None
      ensures cardData.Some? ==>
        var n := |cardData.value.slides|;
        && !isDownloading
        && (AnyThrows(capture, n) || archiveFails ==> saved == None && alert == Some(BATCH_DOWNLOAD_ALERT))
        && (!AnyThrows(capture, n) && !archiveFails ==>
              saved == Some(Archive(ArchiveName(now), ARCHIVE_FOLDER, BatchEntries(capture, n))) && alert == None)
    {
      if cardData.None? {
        return None, None;
      }
      isDownloading := true;
      var n := |cardData.value.slides|;
      var entries: seq<Entry> := [];
      var i := 0;
      while i < n
        invariant 0 <= i <= n
        invariant isDownloading
        invariant cardData == old(cardData) && currentSlideIndex == old(currentSlideIndex)
        invariant entries == BatchEntries(capture, i)
        invariant !AnyThrows(capture, i)
      {
        match capture(i) {
          case NoElement =>
          case CaptureFails =>
            isDownloading := false;
            return None, Some(BATCH_DOWNLOAD_ALERT);
          case Captured(png, blobProduced) =>
            if blobProduced {
              entries := entries + [Entry(SlideFileName(i), png)];
            }
        }
        i := i + 1;
      }
      isDownloading := false;
      if archiveFails {
        return None, Some(BATCH_DOWNLOAD_ALERT);
      }
      return Some(Archive(ArchiveName(now), ARCHIVE_FOLDER, entries)), None;
    }
  }
}
