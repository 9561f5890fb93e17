/** The records of the deck: slides, their text styles and the deck itself. */
module Types {
  import opened Wrappers

  /** Block alignment of a text field ('left' | 'center' | 'right'). */
  datatype Align = Left | Center | Right {
    function Name(): (s: string)
      ensures s in {"left", "center", "right"}
    {
      match this
      case Left => "left"
      case Center => "center"
      case Right => "right"
    }
  }

  /**
   * Style of one text field: alignment, a font-size class from the size
   * scale, and an override colour class ("" for the theme's colour).
   */
  datatype TextStyle = TextStyle(align: Align, fontSize: string, color: string)

  /**
   * One page of the deck. `headerStyle` and `bodyStyle` are absent until
   * an edit stores them.
   */
  datatype Slide = Slide(
    pageNumber: int,
    header: string,
    body: string,
    headerStyle: Option<TextStyle>,
    bodyStyle: Option<TextStyle>)
  {
    /** The cover slide is the one numbered 1, wherever it sits in the deck. */
    predicate IsCover() {
      pageNumber == 1
    }
  }

  /** The two editable text fields of a slide. */
  datatype SlideField = HeaderField | BodyField

  /** The deck (CardNewsData). `themeIndex` is None when it was never set. */
  datatype Deck = Deck(
    topic: string,
    targetAudience: string,
    tone: string,
    slides: seq<Slide>,
    hashtags: seq<string>,
    themeIndex: Option<int>)

  /** The eight topic categories and their display strings. */
  datatype RelationshipType = Dating | Marriage | Money | Career | Tech | Friendship | Parenting | Family {
    function Value(): string {
      match this
      case Dating => "연애/심리"
      case Marriage => "결혼/부부"
      case Money => "돈/재테크"
      case Career => "커리어/자기계발"
      case Tech => "AI/테크/트렌드"
      case Friendship => "인간관계/처세"
      case Parenting => "육아/교육"
      case Family => "가족/효도"
    }
  }

  /** Different categories carry different strings. */
  lemma RelationshipValuesDistinct(a: RelationshipType, b: RelationshipType)
    ensures a.Value() == b.Value() ==> a == b
  {
  }

  /** The slide counts a deck may be asked for. */
  newtype SlideCount = n: int | n == 4 || n == 6 || n == 8 || n == 10 || n == 12 || n == 15 || n == 20
    witness 4
}
