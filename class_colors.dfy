/**
 * The class-to-colour resolver of the export branch: a Tailwind text
 * colour class, either an arbitrary value `text-[#RRGGBB]` or one of the
 * named classes the themes use, resolved to a literal colour. The export
 * branch computes it for the theme's `highlightText` and never reads the
 * result: the export spans take `accent` and `highlightBg` directly.
 */
module ClassColors {
  import opened Wrappers
  import opened Text
  import opened Themes

  /** A named text-colour class and the colour it stands for. */
  datatype ClassColor = ClassColor(cls: string, hex: string)

  /** The named classes, in the order they are tried. */
  const CLASS_COLORS: seq<ClassColor> := [
    ClassColor("text-white", "#ffffff"),
    ClassColor("text-black", "#000000"),
    ClassColor("text-gray-800", "#1f2937"),
    ClassColor("text-gray-900", "#111827"),
    ClassColor("text-slate-900", "#0f172a"),
    ClassColor("text-neutral-900", "#171717"),
    ClassColor("text-red-600", "#dc2626"),
    ClassColor("text-rose-600", "#e11d48"),
    ClassColor("text-pink-500", "#ec4899"),
    ClassColor("text-pink-600", "#db2777"),
    ClassColor("text-pink-700", "#be185d"),
    ClassColor("text-pink-800", "#9d174d"),
    ClassColor("text-orange-500", "#f97316"),
    ClassColor("text-orange-900", "#7c2d12"),
    ClassColor("text-yellow-400", "#facc15"),
    ClassColor("text-yellow-800", "#854d0e"),
    ClassColor("text-green-600", "#16a34a"),
    ClassColor("text-emerald-800", "#065f46"),
    ClassColor("text-emerald-900", "#064e3b"),
    ClassColor("text-teal-900", "#134e4a"),
    ClassColor("text-blue-900", "#1e3a8a"),
    ClassColor("text-cyan-800", "#155e75"),
    ClassColor("text-sky-800", "#075985"),
    ClassColor("text-indigo-900", "#312e81"),
    ClassColor("text-purple-800", "#6b21a8"),
    ClassColor("text-purple-900", "#581c87")
  ]

  const FALLBACK_COLOR: string := "#000000"

  /** Every colour in the table is a literal `#RRGGBB`. */
  lemma TableColorsRun0()
    ensures forall k | 0 <= k < 9 :: IsHexColor(CLASS_COLORS[k].hex)
  {
    assert IsHexColor(CLASS_COLORS[0].hex);
    assert IsHexColor(CLASS_COLORS[1].hex);
    assert IsHexColor(CLASS_COLORS[2].hex);
    assert IsHexColor(CLASS_COLORS[3].hex);
    assert IsHexColor(CLASS_COLORS[4].hex);
    assert IsHexColor(CLASS_COLORS[5].hex);
    assert IsHexColor(CLASS_COLORS[6].hex);
    assert IsHexColor(CLASS_COLORS[7].hex);
    assert IsHexColor(CLASS_COLORS[8].hex);
  }

  lemma TableColorsRun1()
    ensures forall k | 9 <= k < 18 :: IsHexColor(CLASS_COLORS[k].hex)
  {
    assert IsHexColor(CLASS_COLORS[9].hex);
    assert IsHexColor(CLASS_COLORS[10].hex);
    assert IsHexColor(CLASS_COLORS[11].hex);
    assert IsHexColor(CLASS_COLORS[12].hex);
    assert IsHexColor(CLASS_COLORS[13].hex);
    assert IsHexColor(CLASS_COLORS[14].hex);
    assert IsHexColor(CLASS_COLORS[15].hex);
    assert IsHexColor(CLASS_COLORS[16].hex);
    assert IsHexColor(CLASS_COLORS[17].hex);
  }

  lemma TableColorsRun2()
    ensures forall k | 18 <= k < 26 :: IsHexColor(CLASS_COLORS[k].hex)
  {
    assert IsHexColor(CLASS_COLORS[18].hex);
    assert IsHexColor(CLASS_COLORS[19].hex);
    assert IsHexColor(CLASS_COLORS[20].hex);
    assert IsHexColor(CLASS_COLORS[21].hex);
    assert IsHexColor(CLASS_COLORS[22].hex);
    assert IsHexColor(CLASS_COLORS[23].hex);
    assert IsHexColor(CLASS_COLORS[24].hex);
    assert IsHexColor(CLASS_COLORS[25].hex);
  }

  lemma TableColors()
    ensures forall k | 0 <= k < |CLASS_COLORS| :: IsHexColor(CLASS_COLORS[k].hex)
  {
    TableColorsRun0();
    TableColorsRun1();
    TableColorsRun2();
  }

  /** No class name in the table is empty, so an empty class string matches none of them. */
  lemma ClassNamesNonEmpty()
    ensures forall k | 0 <= k < |CLASS_COLORS| :: CLASS_COLORS[k].cls != ""
  {
  }

  /** One row's colour is a literal `#RRGGBB`. */
  lemma TableColorAt(k: nat)
    requires k < |CLASS_COLORS|
    ensures IsHexColor(CLASS_COLORS[k].hex)
  {
    TableColors();
  }

  /** The arbitrary-value class `text-[#RRGGBB]` occupies the 14 characters from `i`. */
  predicate HexClassAt(s: string, i: int) {
    && 0 <= i && i + 14 <= |s| && OccursAt("text-[#", s, i)
    && IsHexDigit(s[i + 7]) && IsHexDigit(s[i + 8]) && IsHexDigit(s[i + 9])
    && IsHexDigit(s[i + 10]) && IsHexDigit(s[i + 11]) && IsHexDigit(s[i + 12])
    && s[i + 13] == ']'
  }

  /** The leftmost arbitrary-value class at or after `i` (the regular expression's first match). */
  function HexClassFrom(s: string, i: nat): (k: Option<nat>)
    requires i <= |s|
    ensures k.Some? ==> i <= k.value && HexClassAt(s, k.value)
    ensures k.Some? ==> forall j | i <= j < k.value :: !HexClassAt(s, j)
    ensures k.None? ==> forall j | i <= j < |s| :: !HexClassAt(s, j)
    decreases |s| - i
  {
    if i == |s| then None
    else if HexClassAt(s, i) then Some(i)
    else HexClassFrom(s, i + 1)
  }

  /** The six digits of an arbitrary-value class, behind a `#`, are a literal colour. */
  lemma HexClassColor(s: string, i: int)
    requires HexClassAt(s, i)
    ensures IsHexColor("#" + s[i + 7..i + 13])
  {
    var c := "#" + s[i + 7..i + 13];
    assert forall t | 1 <= t < 7 :: c[t] == s[i + 6 + t];
  }

  /** The first row of `table` whose class name occurs in `className`, from row `k` on. */
  function ListedFrom(table: seq<ClassColor>, className: string, k: nat): (r: Option<nat>)
    requires k <= |table|
    ensures r.Some? ==> k <= r.value < |table|
    decreases |table| - k
  {
    if k == |table| then None
    else if Contains(className, table[k].cls) then Some(k)
    else ListedFrom(table, className, k + 1)
  }

  /** The row found is the first, from row `k` on, whose class occurs; none found means none occurs. */
  lemma {:induction false} ListedFromFirst(table: seq<ClassColor>, className: string, k: nat)
    requires k <= |table|
    ensures var r := ListedFrom(table, className, k);
      && (r.Some? ==> Contains(className, table[r.value].cls))
      && (r.Some? ==> forall j | k <= j < r.value :: !Contains(className, table[j].cls))
      && (r.None? ==> forall j | k <= j < |table| :: !Contains(className, table[j].cls))
    decreases |table| - k
  {
    if k < |table| && !Contains(className, table[k].cls) {
      ListedFromFirst(table, className, k + 1);
    }
  }

  /** The search stops at the first row whose class occurs, whatever the table. */
  lemma ListedFirst(table: seq<ClassColor>, className: string, k: nat)
    requires k < |table| && Contains(className, table[k].cls)
    requires forall j | 0 <= j < k :: !Contains(className, table[j].cls)
    ensures ListedFrom(table, className, 0) == Some(k)
  {
    ListedFromFirst(table, className, 0);
  }

  /**
   * getTextColorFromClass: an empty class gives black, an arbitrary-value
   * class gives its own digits, otherwise the first listed class that
   * occurs in the string decides, and black is the fallback.
   */
  function TextColorFromClass(className: string): (color: string)
    ensures IsHexColor(color)
  {
    if className == "" then FALLBACK_COLOR
    else match HexClassFrom(className, 0)
      case Some(i) => HexClassColor(className, i); "#" + className[i + 7..i + 13]
      case None =>
        match ListedFrom(CLASS_COLORS, className, 0)
        case Some(k) => TableColorAt(k); CLASS_COLORS[k].hex
        case None => FALLBACK_COLOR
  }

  /** An arbitrary-value class resolves to exactly the colour it spells. */
  lemma ArbitraryValueClass(digits: string)
    requires |digits| == 6 && forall c | c in digits :: IsHexDigit(c)
    ensures TextColorFromClass("text-[#" + digits + "]") == "#" + digits
  {
    var s := "text-[#" + digits + "]";
    assert s[0..7] == "text-[#";
    assert forall t | 0 <= t < 6 :: s[7 + t] == digits[t];
    assert HexClassAt(s, 0);
    assert s[7..13] == digits;
  }

  /** Without the `text-[#` prefix there is no arbitrary-value class. */
  lemma NoHexClass(s: string)
    requires !Contains(s, "text-[#")
    ensures HexClassFrom(s, 0).None?
  {
    forall j | 0 <= j < |s| ensures !HexClassAt(s, j) {
      assert j + 14 <= |s| ==> j <= |s| - |"text-[#"|;
    }
  }

  /** A class with no well-formed arbitrary value and no listed class falls back to black. */
  lemma UnlistedClass(className: string)
    requires forall k | 0 <= k < |CLASS_COLORS| :: !Contains(className, CLASS_COLORS[k].cls)
    requires HexClassFrom(className, 0).None?
    ensures TextColorFromClass(className) == FALLBACK_COLOR
  {
    ListedFromFirst(CLASS_COLORS, className, 0);
  }

  /** With no well-formed arbitrary value present, the earliest listed class wins. */
  lemma ListedClass(className: string, k: nat)
    requires k < |CLASS_COLORS| && Contains(className, CLASS_COLORS[k].cls)
    requires forall j | 0 <= j < k :: !Contains(className, CLASS_COLORS[j].cls)
    requires HexClassFrom(className, 0).None?
    ensures TextColorFromClass(className) == CLASS_COLORS[k].hex
  {
    ClassNamesNonEmpty();
    assert className != "";
    ListedFirst(CLASS_COLORS, className, k);
  }
}
