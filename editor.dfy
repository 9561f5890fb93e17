/**
 * The editing half of the card component: the edit buffers seeded from a
 * slide, the style controls (alignment, size steps, colour palette) and the
 * update that is sent upward while edit mode is on.
 */
module Editor {
  import opened Wrappers
  import opened Text
  import opened Types
  import opened Themes
  import opened Markup

  // ---------------------------------------------------------------------
  // The size scale
  // ---------------------------------------------------------------------

  /** The font-size classes, smallest first. */
  const SIZES: seq<string> := ["text-sm", "text-base", "text-lg", "text-xl", "text-2xl", "text-3xl", "text-4xl", "text-5xl", "text-6xl", "text-7xl"]

  /** The scale never names a size twice. */
  lemma SizesDistinct()
    ensures forall i, j | 0 <= i < j < |SIZES| :: SIZES[i] != SIZES[j]
  {
    assert forall i | 0 <= i < |SIZES| :: |SIZES[i]| >= 7 && SIZES[i][..5] == "text-";
    assert SIZES[0][5] == 's' && SIZES[1][5] == 'b' && SIZES[2][5] == 'l' && SIZES[3][5] == 'x';
    assert forall i | 4 <= i < |SIZES| :: SIZES[i][6] == 'x' && SIZES[i][5] == "234567"[i - 4];
  }

  /** `SIZES.indexOf(fontSize)`. */
  function SizeIndex(fontSize: string): (k: int)
    ensures -1 <= k < |SIZES|
    ensures k == -1 <==> fontSize !in SIZES
    ensures k >= 0 ==> SIZES[k] == fontSize
  {
    if fontSize in SIZES then
      var k :| 0 <= k < |SIZES| && SIZES[k] == fontSize; k
    else -1
  }

  /** Every size on the scale is found at its own position. */
  lemma SizeIndexOf(k: int)
    requires 0 <= k < |SIZES|
    ensures SizeIndex(SIZES[k]) == k
  {
    SizesDistinct();
  }

  /**
   * The size step without a selection: move along the scale by `delta`,
   * stopping at either end; a size that is not on the scale is left alone.
   */
  function StepFontSize(fontSize: string, delta: int): (r: string)
    ensures fontSize !in SIZES ==> r == fontSize
    ensures fontSize in SIZES ==> r in SIZES
  {
    var currentIndex := SizeIndex(fontSize);
    if currentIndex != -1 then SIZES[Clamp(currentIndex + delta, 0, |SIZES| - 1)] else fontSize
  }

  /** A step lands on the clamped position. */
  lemma StepFontSizeIndex(fontSize: string, delta: int)
    requires fontSize in SIZES
    ensures SizeIndex(StepFontSize(fontSize, delta)) == Clamp(SizeIndex(fontSize) + delta, 0, |SIZES| - 1)
  {
    SizeIndexOf(Clamp(SizeIndex(fontSize) + delta, 0, |SIZES| - 1));
  }

  /** One step up and one step down return to the start, except at the top of the scale. */
  lemma StepUpDown(fontSize: string)
    requires fontSize in SIZES && fontSize != "text-7xl"
    ensures StepFontSize(StepFontSize(fontSize, 1), -1) == fontSize
  {
    StepFontSizeIndex(fontSize, 1);
    assert SizeIndex(fontSize) != 9;
  }

  /** Larger steps never give a smaller size. */
  lemma StepMonotone(fontSize: string, d1: int, d2: int)
    requires fontSize in SIZES && d1 <= d2
    ensures SizeIndex(StepFontSize(fontSize, d1)) <= SizeIndex(StepFontSize(fontSize, d2))
  {
    StepFontSizeIndex(fontSize, d1);
    StepFontSizeIndex(fontSize, d2);
  }

  /**
   * The size step on a selection: the browser's size 1..7, read back from
   * the document (None when it cannot be read or is not a number, 0 when it
   * reads as zero; both count as the default 3), moved by `delta` and clamped.
   */
  function SelectionFontSize(queried: Option<int>, delta: int): (level: int)
    ensures 1 <= level <= 7
    ensures var current := if queried.None? || queried.value == 0 then 3 else queried.value;
      && (1 <= current + delta <= 7 ==> level == current + delta)
      && (current + delta < 1 ==> level == 1)
      && (current + delta > 7 ==> level == 7)
  {
    var currentVal := if queried.None? || queried.value == 0 then 3 else queried.value;
    Clamp(currentVal + delta, 1, 7)
  }

  /** Inside the range a step up and a step down cancel; at the ends the level saturates. */
  lemma SelectionFontSizeSteps(level: int)
    requires 1 <= level <= 7
    ensures level < 7 ==> SelectionFontSize(Some(SelectionFontSize(Some(level), 1)), -1) == level
    ensures SelectionFontSize(Some(7), 1) == 7 && SelectionFontSize(Some(1), -1) == 1
    ensures SelectionFontSize(None, 0) == 3 && SelectionFontSize(Some(0), 0) == 3
    ensures SelectionFontSize(Some(0), 1) == 4 && SelectionFontSize(None, -1) == 2
  {
  }

  // ---------------------------------------------------------------------
  // Default styles and the colour palette
  // ---------------------------------------------------------------------

  /** The header style of a slide that has none stored: centred and large on the cover. */
  function DefaultHeaderStyle(isCover: bool): (s: TextStyle)
    ensures s.color == ""
    ensures isCover ==> s.align == Center && s.fontSize == "text-5xl"
    ensures !isCover ==> s.align == Left && s.fontSize == "text-3xl"
  {
    TextStyle(if isCover then Center else Left, if isCover then "text-5xl" else "text-3xl", "")
  }

  /** The body style of a slide that has none stored. */
  const DEFAULT_BODY_STYLE: TextStyle := TextStyle(Left, "text-2xl", "")

  /** One palette entry; `hex` is None for the entry that clears formatting. */
  datatype PaletteColor = PaletteColor(caption: string, value: string, hex: Option<string>)

  const TEXT_COLORS: seq<PaletteColor> := [
    PaletteColor("기본", "inherit", None),
    PaletteColor("흰색", "text-white", Some("#ffffff")),
    PaletteColor("검정", "text-black", Some("#000000")),
    PaletteColor("회색", "text-gray-500", Some("#6b7280")),
    PaletteColor("빨강", "text-red-500", Some("#ef4444")),
    PaletteColor("노랑", "text-yellow-400", Some("#facc15")),
    PaletteColor("초록", "text-green-500", Some("#22c55e")),
    PaletteColor("파랑", "text-blue-500", Some("#3b82f6")),
    PaletteColor("보라", "text-purple-500", Some("#a855f7"))
  ]

  /** The rich-text commands the toolbar issues to the browser. */
  datatype EditCommand =
    | Undo
    | FontSize(level: int)
    | ForeColor(hex: string)
    | RemoveFormat
    | BoldCmd
    | ItalicCmd
    | UnderlineCmd
  {
    /** The command name handed to `document.execCommand`. */
    function Name(): string {
      match this
      case Undo => "undo"
      case FontSize(_) => "fontSize"
      case ForeColor(_) => "foreColor"
      case RemoveFormat => "removeFormat"
      case BoldCmd => "bold"
      case ItalicCmd => "italic"
      case UnderlineCmd => "underline"
    }
  }

  /** Whether a command is issued in CSS mode: all but the three text-decoration toggles. */
  predicate StyleWithCss(cmd: EditCommand) {
    !(cmd.BoldCmd? || cmd.ItalicCmd? || cmd.UnderlineCmd?)
  }

  /** CSS mode is switched off exactly for the commands named bold, italic and underline. */
  lemma CssModeByName(cmd: EditCommand)
    ensures StyleWithCss(cmd) <==> !(cmd.Name() == "bold" || cmd.Name() == "italic" || cmd.Name() == "underline")
  {
  }

  /** The two browser calls one toolbar action makes: the `styleWithCSS` switch, then the command. */
  datatype BrowserCall = BrowserCall(styleWithCss: bool, command: EditCommand)

  /** A palette click: colour the selection, or clear its formatting for the entry without a colour. */
  function PaletteCommand(c: PaletteColor): (cmd: EditCommand)
    ensures c.hex.Some? ==> cmd == ForeColor(c.hex.value)
    ensures c.hex.None? ==> cmd == RemoveFormat
  {
    if c.hex.Some? then ForeColor(c.hex.value) else RemoveFormat
  }

  /** Only the first palette entry clears formatting; every other one sets a literal colour. */
  lemma PaletteCommands(k: int)
    requires 0 <= k < |TEXT_COLORS|
    ensures k == 0 <==> PaletteCommand(TEXT_COLORS[k]) == RemoveFormat
    ensures k > 0 ==> PaletteCommand(TEXT_COLORS[k]).ForeColor? && IsHexColor(PaletteCommand(TEXT_COLORS[k]).hex)
  {
    if k > 0 {
      assert IsHexColor(TEXT_COLORS[k].hex.value) by {
        if k == 1 { assert IsHexColor("#ffffff"); }
        else if k == 2 { assert IsHexColor("#000000"); }
        else if k == 3 { assert IsHexColor("#6b7280"); }
        else if k == 4 { assert IsHexColor("#ef4444"); }
        else if k == 5 { assert IsHexColor("#facc15"); }
        else if k == 6 { assert IsHexColor("#22c55e"); }
        else if k == 7 { assert IsHexColor("#3b82f6"); }
        else { assert IsHexColor("#a855f7"); }
      }
    }
  }

  // ---------------------------------------------------------------------
  // The editor state
  // ---------------------------------------------------------------------

  /** What the component reports upward: both buffers and both styles. */
  datatype EditorUpdate = EditorUpdate(header: string, body: string, headerStyle: TextStyle, bodyStyle: TextStyle)

  /** The per-card edit state: edit mode, the two markup buffers and their styles. */
  class CardEditor {
    var isEditing: bool
    var editHeader: string
    var editBody: string
    var editHeaderStyle: TextStyle
    var editBodyStyle: TextStyle

    constructor()
      ensures !isEditing && editHeader == "" && editBody == ""
      ensures editHeaderStyle == TextStyle(Left, "text-3xl", "")
      ensures editBodyStyle == TextStyle(Left, "text-xl", "")
    {
      isEditing := false;
      editHeader := "";
      editBody := "";
      editHeaderStyle := TextStyle(Left, "text-3xl", "");
      editBodyStyle := TextStyle(Left, "text-xl", "");
    }

    /** The update the component sends after a change: only while editing. */
    function PendingUpdate(): (u: Option<EditorUpdate>)
      reads this
      ensures u.Some? <==> isEditing
      ensures u.Some? ==> u.value == EditorUpdate(editHeader, editBody, editHeaderStyle, editBodyStyle)
    {
      if isEditing then Some(EditorUpdate(editHeader, editBody, editHeaderStyle, editBodyStyle)) else None
    }

    /** The style being edited for one field. */
    function StyleOf(field: SlideField): TextStyle
      reads this
    {
      if field == HeaderField then editHeaderStyle else editBodyStyle
    }

    /**
     * Load the buffers from a slide: stored markup is kept, other text is
     * converted from markdown, and missing styles take the defaults. Edit
     * mode is left as it is.
     */
    method SeedFrom(slide: Slide) returns (fired: Option<EditorUpdate>)
      modifies this
      ensures editHeader == ToEditableHtml(slide.header) && editBody == ToEditableHtml(slide.body)
      ensures editHeaderStyle == (if slide.headerStyle.Some? then slide.headerStyle.value else DefaultHeaderStyle(slide.IsCover()))
      ensures editBodyStyle == (if slide.bodyStyle.Some? then slide.bodyStyle.value else DEFAULT_BODY_STYLE)
      ensures isEditing == old(isEditing)
      ensures fired == PendingUpdate()
    {
      editHeader := ToEditableHtml(slide.header);
      editBody := ToEditableHtml(slide.body);
      editHeaderStyle := if slide.headerStyle.Some? then slide.headerStyle.value else DefaultHeaderStyle(slide.IsCover());
      editBodyStyle := if slide.bodyStyle.Some? then slide.bodyStyle.value else DEFAULT_BODY_STYLE;
      fired := PendingUpdate();
    }

    /** Enter edit mode; the current buffers are reported at once. */
    method StartEditing() returns (fired: Option<EditorUpdate>)
      modifies this
      ensures isEditing
      ensures editHeader == old(editHeader) && editBody == old(editBody)
      ensures editHeaderStyle == old(editHeaderStyle) && editBodyStyle == old(editBodyStyle)
      ensures fired == Some(EditorUpdate(editHeader, editBody, editHeaderStyle, editBodyStyle))
    {
      isEditing := true;
      fired := PendingUpdate();
    }

    /** Leave edit mode; nothing is reported. */
    method FinishEditing()
      modifies this
      ensures !isEditing && PendingUpdate() == None
      ensures editHeader == old(editHeader) && editBody == old(editBody)
      ensures editHeaderStyle == old(editHeaderStyle) && editBodyStyle == old(editBodyStyle)
    {
      isEditing := false;
    }

    /** The editable area reports new markup for one field; an identical value changes nothing. */
    method SetHtml(field: SlideField, html: string) returns (fired: Option<EditorUpdate>)
      modifies this
      ensures field == HeaderField ==> editHeader == html && editBody == old(editBody)
      ensures field == BodyField ==> editBody == html && editHeader == old(editHeader)
      ensures editHeaderStyle == old(editHeaderStyle) && editBodyStyle == old(editBodyStyle)
      ensures isEditing == old(isEditing)
      ensures fired == (if html == (if field == HeaderField then old(editHeader) else old(editBody)) then None else PendingUpdate())
    {
      var previous := if field == HeaderField then editHeader else editBody;
      if field == HeaderField {
        editHeader := html;
      } else {
        editBody := html;
      }
      fired := if html == previous then None else PendingUpdate();
    }

    /** An alignment button: only the field's `align` changes. */
    method SetAlign(field: SlideField, align: Align) returns (fired: Option<EditorUpdate>)
      modifies this
      ensures StyleOf(field) == old(StyleOf(field)).(align := align)
      ensures field == HeaderField ==> editBodyStyle == old(editBodyStyle)
      ensures field == BodyField ==> editHeaderStyle == old(editHeaderStyle)
      ensures editHeader == old(editHeader) && editBody == old(editBody) && isEditing == old(isEditing)
      ensures fired == PendingUpdate()
    {
      if field == HeaderField {
        editHeaderStyle := editHeaderStyle.(align := align);
      } else {
        editBodyStyle := editBodyStyle.(align := align);
      }
      fired := PendingUpdate();
    }

    /**
     * A toolbar command on one field: CSS mode is switched on for every
     * command but bold, italic and underline, the command is issued, and the
     * field's buffer takes `rendered`, the editable area's markup after the
     * browser has run the command (the browser itself is not modelled).
     */
    method ExecCommand(field: SlideField, cmd: EditCommand, rendered: string)
      returns (call: BrowserCall, fired: Option<EditorUpdate>)
      modifies this
      ensures call == BrowserCall(StyleWithCss(cmd), cmd)
      ensures field == HeaderField ==> editHeader == rendered && editBody == old(editBody)
      ensures field == BodyField ==> editBody == rendered && editHeader == old(editHeader)
      ensures editHeaderStyle == old(editHeaderStyle) && editBodyStyle == old(editBodyStyle)
      ensures isEditing == old(isEditing)
      ensures fired == (if rendered == (if field == HeaderField then old(editHeader) else old(editBody)) then None else PendingUpdate())
    {
      call := BrowserCall(StyleWithCss(cmd), cmd);
      fired := SetHtml(field, rendered);
    }

    /** A palette swatch: always issued in CSS mode, as `foreColor` or `removeFormat`. */
    method PaletteClick(field: SlideField, c: PaletteColor, rendered: string)
      returns (call: BrowserCall, fired: Option<EditorUpdate>)
      modifies this
      ensures call.styleWithCss
      ensures c.hex.Some? ==> call.command == ForeColor(c.hex.value) && call.command.Name() == "foreColor"
      ensures c.hex.None? ==> call.command == RemoveFormat && call.command.Name() == "removeFormat"
      ensures field == HeaderField ==> editHeader == rendered && editBody == old(editBody)
      ensures field == BodyField ==> editBody == rendered && editHeader == old(editHeader)
      ensures editHeaderStyle == old(editHeaderStyle) && editBodyStyle == old(editBodyStyle)
      ensures isEditing == old(isEditing)
    {
      call, fired := ExecCommand(field, PaletteCommand(c), rendered);
    }

    /**
     * The size buttons. With a non-empty selection inside the field the
     * browser is asked, in CSS mode, for the clamped size level and the
     * buffer takes the markup it produces; otherwise the field's font size
     * steps along the scale, and a size off the scale leaves the state
     * untouched.
     */
    method ChangeSize(field: SlideField, delta: int, hasSelection: bool, queried: Option<int>, rendered: string)
      returns (call: Option<BrowserCall>, fired: Option<EditorUpdate>)
      modifies this
      ensures hasSelection ==> call == Some(BrowserCall(true, FontSize(SelectionFontSize(queried, delta))))
      ensures hasSelection ==> StyleOf(field) == old(StyleOf(field))
      ensures hasSelection && field == HeaderField ==> editHeader == rendered && editBody == old(editBody)
      ensures hasSelection && field == BodyField ==> editBody == rendered && editHeader == old(editHeader)
      ensures hasSelection ==>
        fired == (if rendered == (if field == HeaderField then old(editHeader) else old(editBody)) then None else PendingUpdate())
      ensures !hasSelection ==> call == None
      ensures !hasSelection && old(StyleOf(field)).fontSize !in SIZES ==>
        StyleOf(field) == old(StyleOf(field)) && fired == None
      ensures !hasSelection && old(StyleOf(field)).fontSize in SIZES ==>
        StyleOf(field) == old(StyleOf(field)).(fontSize := StepFontSize(old(StyleOf(field)).fontSize, delta))
        && fired == PendingUpdate()
      ensures !hasSelection ==> editHeader == old(editHeader) && editBody == old(editBody)
      ensures field == HeaderField ==> editBodyStyle == old(editBodyStyle)
      ensures field == BodyField ==> editHeaderStyle == old(editHeaderStyle)
      ensures isEditing == old(isEditing)
    {
      if hasSelection {
        var issued;
        issued, fired := ExecCommand(field, FontSize(SelectionFontSize(queried, delta)), rendered);
        call := Some(issued);
      } else {
        call := None;
        var style := StyleOf(field);
        if SizeIndex(style.fontSize) != -1 {
          var next := style.(fontSize := StepFontSize(style.fontSize, delta));
          if field == HeaderField {
            editHeaderStyle := next;
          } else {
            editBodyStyle := next;
          }
          fired := PendingUpdate();
        } else {
          fired := None;
        }
      }
    }
  }
}
