/**
 * The theme catalogue of the card renderer: fifty fixed colour bundles,
 * chosen for a whole deck by one index that is normalised before lookup.
 */
module Themes {

  /**
   * A theme. `bg`, `text`, `accent`, `highlightText` and `decoration` are
   * style classes (opaque text here); `highlightBg` is a literal colour;
   * `blob1`/`blob2` are the colours of the two decorative gradients.
   */
  datatype Theme = Theme(
    id: string,
    bg: string,
    text: string,
    accent: string,
    highlightBg: string,
    highlightText: string,
    decoration: string,
    blob1: string,
    blob2: string)

  const NEON_DARK := Theme("neon-dark", "bg-gray-900", "text-white", "text-[#FF0055]", "#FF0055", "text-white", "bg-gradient-to-tr from-[#FF0055] to-[#FF5588]", "rgba(255, 0, 85, 0.4)", "rgba(255, 85, 136, 0.3)")
  const CLEAN_BLUE := Theme("clean-blue", "bg-white", "text-gray-900", "text-[#2962FF]", "#2962FF", "text-white", "bg-gradient-to-tr from-[#2962FF] to-[#00B0FF]", "rgba(41, 98, 255, 0.15)", "rgba(0, 176, 255, 0.15)")
  const WARM_EMOTIONAL := Theme("warm-emotional", "bg-[#FDFBF7]", "text-[#4A403A]", "text-[#D84315]", "#FFCCBC", "text-[#BF360C]", "bg-gradient-to-br from-[#FFAB91] to-[#FF7043]", "rgba(255, 171, 145, 0.4)", "rgba(255, 112, 67, 0.3)")
  const VIBRANT_PURPLE := Theme("vibrant-purple", "bg-[#7000FF]", "text-white", "text-[#00E5FF]", "#00E5FF", "text-black", "bg-gradient-to-bl from-[#D500F9] to-[#651FFF]", "rgba(213, 0, 249, 0.4)", "rgba(101, 31, 255, 0.4)")
  const TRUST_GREEN := Theme("trust-green", "bg-[#004D40]", "text-[#E0F2F1]", "text-[#FFD740]", "#FFD740", "text-[#004D40]", "bg-gradient-to-t from-[#00695C] to-[#4DB6AC]", "rgba(0, 105, 92, 0.5)", "rgba(77, 182, 172, 0.4)")
  const MIDNIGHT_GOLD := Theme("midnight-gold", "bg-slate-900", "text-amber-50", "text-amber-400", "#fbbf24", "text-slate-900", "bg-gradient-to-r from-amber-300 to-yellow-500", "rgba(251, 191, 36, 0.15)", "rgba(180, 83, 9, 0.15)")
  const SUNSET_GRADIENT := Theme("sunset-gradient", "bg-gradient-to-br from-indigo-900 to-purple-800", "text-white", "text-orange-300", "#fb923c", "text-white", "bg-gradient-to-r from-orange-400 to-pink-500", "rgba(251, 146, 60, 0.3)", "rgba(236, 72, 153, 0.3)")
  const OCEAN_DEPTHS := Theme("ocean-depths", "bg-gradient-to-b from-blue-900 to-slate-900", "text-cyan-100", "text-cyan-400", "#22d3ee", "text-blue-900", "bg-gradient-to-t from-cyan-400 to-blue-500", "rgba(34, 211, 238, 0.2)", "rgba(59, 130, 246, 0.2)")
  const FOREST_MIST := Theme("forest-mist", "bg-gradient-to-br from-emerald-900 to-green-800", "text-emerald-50", "text-emerald-300", "#34d399", "text-emerald-900", "bg-emerald-500", "rgba(52, 211, 153, 0.2)", "rgba(16, 185, 129, 0.2)")
  const BERRY_SMOOTHIE := Theme("berry-smoothie", "bg-gradient-to-tr from-pink-500 to-rose-500", "text-white", "text-yellow-200", "#ffffff", "text-rose-600", "bg-yellow-300", "rgba(255, 255, 255, 0.2)", "rgba(253, 224, 71, 0.3)")
  const MINIMAL_MONO := Theme("minimal-mono", "bg-gray-100", "text-gray-900", "text-black", "#000000", "text-white", "bg-gray-800", "rgba(0, 0, 0, 0.05)", "rgba(0, 0, 0, 0.08)")
  const MINIMAL_DARK := Theme("minimal-dark", "bg-neutral-900", "text-neutral-200", "text-white", "#ffffff", "text-black", "bg-neutral-700", "rgba(255, 255, 255, 0.05)", "rgba(255, 255, 255, 0.03)")
  const PAPER_WHITE := Theme("paper-white", "bg-[#F5F5F5]", "text-[#333333]", "text-[#000000]", "#333333", "text-white", "bg-[#999999]", "rgba(0,0,0,0.03)", "rgba(0,0,0,0.03)")
  const SOFT_GRAY := Theme("soft-gray", "bg-slate-200", "text-slate-800", "text-slate-600", "#475569", "text-white", "bg-slate-400", "rgba(71, 85, 105, 0.1)", "rgba(51, 65, 85, 0.1)")
  const HIGH_CONTRAST := Theme("high-contrast", "bg-black", "text-yellow-400", "text-white", "#facc15", "text-black", "bg-white", "rgba(250, 204, 21, 0.1)", "rgba(255, 255, 255, 0.1)")
  const MINTY_FRESH := Theme("minty-fresh", "bg-emerald-50", "text-emerald-900", "text-emerald-600", "#a7f3d0", "text-emerald-800", "bg-gradient-to-tr from-emerald-400 to-teal-400", "rgba(52, 211, 153, 0.2)", "rgba(16, 185, 129, 0.2)")
  const SOFT_LAVENDER := Theme("soft-lavender", "bg-purple-50", "text-slate-700", "text-purple-600", "#e9d5ff", "text-purple-800", "bg-purple-400", "rgba(192, 132, 252, 0.2)", "rgba(168, 85, 247, 0.15)")
  const PEACH_FUZZ := Theme("peach-fuzz", "bg-orange-50", "text-stone-800", "text-orange-500", "#fed7aa", "text-orange-900", "bg-orange-400", "rgba(251, 146, 60, 0.2)", "rgba(253, 186, 116, 0.2)")
  const SKY_BLUE := Theme("sky-blue", "bg-sky-50", "text-sky-900", "text-sky-500", "#bae6fd", "text-sky-800", "bg-sky-400", "rgba(14, 165, 233, 0.1)", "rgba(56, 189, 248, 0.15)")
  const LEMON_CHIFFON := Theme("lemon-chiffon", "bg-yellow-50", "text-yellow-900", "text-yellow-600", "#fef08a", "text-yellow-800", "bg-yellow-400", "rgba(250, 204, 21, 0.1)", "rgba(253, 224, 71, 0.15)")
  const RETRO_YELLOW := Theme("retro-yellow", "bg-yellow-400", "text-black", "text-red-600", "#000000", "text-yellow-400", "bg-red-500", "rgba(0,0,0,0.1)", "rgba(239, 68, 68, 0.2)")
  const RED_POWER := Theme("red-power", "bg-red-600", "text-white", "text-yellow-300", "#ffffff", "text-red-600", "bg-yellow-400", "rgba(255, 255, 255, 0.2)", "rgba(0, 0, 0, 0.2)")
  const ORANGE_SODA := Theme("orange-soda", "bg-orange-500", "text-white", "text-yellow-300", "#ffffff", "text-orange-500", "bg-yellow-400", "rgba(255, 255, 255, 0.3)", "rgba(252, 211, 77, 0.3)")
  const LIME_PUNCH := Theme("lime-punch", "bg-lime-400", "text-black", "text-blue-700", "#2563eb", "text-white", "bg-blue-500", "rgba(37, 99, 235, 0.2)", "rgba(29, 78, 216, 0.2)")
  const HOT_PINK := Theme("hot-pink", "bg-pink-500", "text-white", "text-lime-300", "#bef264", "text-pink-600", "bg-lime-400", "rgba(190, 242, 100, 0.3)", "rgba(255, 255, 255, 0.2)")
  const DEEP_SPACE := Theme("deep-space", "bg-slate-950", "text-cyan-50", "text-cyan-400", "#06b6d4", "text-slate-900", "bg-gradient-to-r from-cyan-500 to-blue-500", "rgba(6, 182, 212, 0.15)", "rgba(59, 130, 246, 0.15)")
  const CYBERPUNK := Theme("cyberpunk", "bg-black", "text-green-50", "text-green-400", "#22c55e", "text-black", "bg-gradient-to-r from-green-400 to-lime-400", "rgba(74, 222, 128, 0.3)", "rgba(132, 204, 22, 0.2)")
  const VAMPIRE_RED := Theme("vampire-red", "bg-[#2A0A0A]", "text-red-100", "text-red-500", "#dc2626", "text-black", "bg-red-700", "rgba(220, 38, 38, 0.2)", "rgba(153, 27, 27, 0.3)")
  const INDIGO_NIGHT := Theme("indigo-night", "bg-indigo-950", "text-indigo-100", "text-pink-400", "#ec4899", "text-white", "bg-gradient-to-r from-pink-500 to-purple-500", "rgba(236, 72, 153, 0.2)", "rgba(99, 102, 241, 0.2)")
  const GALAXY_VOID := Theme("galaxy-void", "bg-[#0F172A]", "text-purple-100", "text-purple-400", "#9333ea", "text-white", "bg-purple-500", "rgba(168, 85, 247, 0.2)", "rgba(192, 132, 252, 0.1)")
  const CORPORATE_BLUE := Theme("corporate-blue", "bg-blue-900", "text-white", "text-blue-200", "#ffffff", "text-blue-900", "bg-blue-400", "rgba(96, 165, 250, 0.2)", "rgba(37, 99, 235, 0.2)")
  const SLATE_TEAL := Theme("slate-teal", "bg-slate-800", "text-slate-100", "text-teal-400", "#14b8a6", "text-slate-900", "bg-gradient-to-tr from-teal-400 to-emerald-400", "rgba(45, 212, 191, 0.2)", "rgba(52, 211, 153, 0.2)")
  const NAVY_GOLD := Theme("navy-gold", "bg-blue-950", "text-slate-200", "text-yellow-500", "#eab308", "text-white", "bg-yellow-700", "rgba(234, 179, 8, 0.2)", "rgba(30, 58, 138, 0.5)")
  const STEEL_GRAY := Theme("steel-gray", "bg-gray-600", "text-white", "text-gray-300", "#d1d5db", "text-gray-800", "bg-gray-400", "rgba(255, 255, 255, 0.1)", "rgba(0, 0, 0, 0.2)")
  const EXECUTIVE := Theme("executive", "bg-[#1C1C1C]", "text-gray-200", "text-white", "#ffffff", "text-black", "bg-gray-500", "rgba(255, 255, 255, 0.05)", "rgba(255, 255, 255, 0.05)")
  const FOREST_CALM := Theme("forest-calm", "bg-[#2C3E2D]", "text-[#E8F5E9]", "text-[#A5D6A7]", "#a5d6a7", "text-[#1B5E20]", "bg-[#81C784]", "rgba(165, 214, 167, 0.15)", "rgba(200, 230, 201, 0.1)")
  const COFFEE_HOUSE := Theme("coffee-house", "bg-[#3E2723]", "text-[#EFEBE9]", "text-[#D7CCC8]", "#a1887f", "text-white", "bg-[#8D6E63]", "rgba(215, 204, 200, 0.1)", "rgba(161, 136, 127, 0.1)")
  const SAND_DUNE := Theme("sand-dune", "bg-[#D7CCC8]", "text-[#3E2723]", "text-[#5D4037]", "#5d4037", "text-[#D7CCC8]", "bg-[#795548]", "rgba(62, 39, 35, 0.1)", "rgba(93, 64, 55, 0.1)")
  const OLIVE_GARDEN := Theme("olive-garden", "bg-[#556B2F]", "text-[#FFFFF0]", "text-[#808000]", "#6b8e23", "text-white", "bg-[#9ACD32]", "rgba(154, 205, 50, 0.2)", "rgba(107, 142, 35, 0.3)")
  const OCEAN_BREEZE := Theme("ocean-breeze", "bg-cyan-50", "text-cyan-900", "text-cyan-600", "#bae6fd", "text-cyan-800", "bg-gradient-to-r from-cyan-400 to-blue-400", "rgba(34, 211, 238, 0.2)", "rgba(6, 182, 212, 0.15)")
  const ROYAL_LUXURY := Theme("royal-luxury", "bg-zinc-900", "text-orange-50", "text-yellow-500", "#ca8a04", "text-black", "bg-gradient-to-r from-yellow-500 to-yellow-200", "rgba(234, 179, 8, 0.15)", "rgba(250, 204, 21, 0.1)")
  const ROSE_GOLD := Theme("rose-gold", "bg-[#B76E79]", "text-white", "text-[#FFD700]", "#ffffff", "text-[#B76E79]", "bg-[#E6C2C9]", "rgba(255, 215, 0, 0.2)", "rgba(255, 255, 255, 0.2)")
  const PLATINUM := Theme("platinum", "bg-[#E5E4E2]", "text-slate-800", "text-slate-500", "#94a3b8", "text-white", "bg-slate-300", "rgba(100, 116, 139, 0.1)", "rgba(148, 163, 184, 0.1)")
  const CHAMPAGNE := Theme("champagne", "bg-[#F7E7CE]", "text-[#5C4033]", "text-[#C2B280]", "#c2b280", "text-white", "bg-[#D4C494]", "rgba(194, 178, 128, 0.2)", "rgba(92, 64, 51, 0.1)")
  const RUBY := Theme("ruby", "bg-[#9B111E]", "text-white", "text-[#FFD700]", "#ffd700", "text-[#9B111E]", "bg-[#E0115F]", "rgba(255, 215, 0, 0.2)", "rgba(255, 255, 255, 0.1)")
  const BUBBLEGUM := Theme("bubblegum", "bg-gradient-to-b from-blue-300 to-pink-300", "text-white", "text-purple-600", "#ffffff", "text-pink-500", "bg-purple-400", "rgba(255, 255, 255, 0.4)", "rgba(236, 72, 153, 0.3)")
  const TROPICAL_PUNCH := Theme("tropical-punch", "bg-gradient-to-tr from-green-400 to-blue-500", "text-white", "text-yellow-200", "#ffffff", "text-green-600", "bg-yellow-400", "rgba(253, 224, 71, 0.3)", "rgba(255, 255, 255, 0.2)")
  const CHERRY_BLOSSOM := Theme("cherry-blossom", "bg-pink-50", "text-pink-900", "text-pink-500", "#fbcfe8", "text-pink-700", "bg-pink-300", "rgba(244, 114, 182, 0.2)", "rgba(251, 207, 232, 0.4)")
  const GRAPE_SODA := Theme("grape-soda", "bg-purple-800", "text-purple-100", "text-fuchsia-300", "#e879f9", "text-purple-900", "bg-purple-500", "rgba(232, 121, 249, 0.2)", "rgba(192, 132, 252, 0.2)")
  const PASTEL_DREAM := Theme("pastel-dream", "bg-gradient-to-br from-pink-100 via-purple-100 to-indigo-100", "text-slate-700", "text-pink-500", "#fbcfe8", "text-pink-800", "bg-gradient-to-r from-pink-300 to-purple-300", "rgba(244, 114, 182, 0.2)", "rgba(251, 207, 232, 0.2)")

  /** The catalogue, in listing order (five blocks of ten, joined). */
  const THEMES: seq<Theme> :=
    [NEON_DARK, CLEAN_BLUE, WARM_EMOTIONAL, VIBRANT_PURPLE, TRUST_GREEN,
       MIDNIGHT_GOLD, SUNSET_GRADIENT, OCEAN_DEPTHS, FOREST_MIST, BERRY_SMOOTHIE]
  + [MINIMAL_MONO, MINIMAL_DARK, PAPER_WHITE, SOFT_GRAY, HIGH_CONTRAST,
       MINTY_FRESH, SOFT_LAVENDER, PEACH_FUZZ, SKY_BLUE, LEMON_CHIFFON]
  + [RETRO_YELLOW, RED_POWER, ORANGE_SODA, LIME_PUNCH, HOT_PINK,
       DEEP_SPACE, CYBERPUNK, VAMPIRE_RED, INDIGO_NIGHT, GALAXY_VOID]
  + [CORPORATE_BLUE, SLATE_TEAL, NAVY_GOLD, STEEL_GRAY, EXECUTIVE,
       FOREST_CALM, COFFEE_HOUSE, SAND_DUNE, OLIVE_GARDEN, OCEAN_BREEZE]
  + [ROYAL_LUXURY, ROSE_GOLD, PLATINUM, CHAMPAGNE, RUBY,
       BUBBLEGUM, TROPICAL_PUNCH, CHERRY_BLOSSOM, GRAPE_SODA, PASTEL_DREAM]

  function Abs(i: int): (a: nat)
    ensures a == i || a == -i
  {
    if i < 0 then -i else i
  }

  /** `Math.abs(i) % THEMES.length`: the catalogue position an index selects. */
  function ThemePosition(i: int): (k: nat)
    ensures k < |THEMES|
    ensures 0 <= i < |THEMES| ==> k == i
  {
    Abs(i) % |THEMES|
  }

  /** The theme for any integer index: never out of range. */
  function ThemeAt(i: int): (t: Theme)
    ensures t in THEMES
  {
    THEMES[ThemePosition(i)]
  }

  lemma CatalogueSize()
    ensures |THEMES| == 50
  {
  }

  /** A negative index selects the same theme as its absolute value. */
  lemma ThemeAtSymmetric(i: int)
    ensures ThemeAt(-i) == ThemeAt(i)
  {
    assert ThemePosition(-i) == ThemePosition(i);
  }

  lemma ModShift(a: nat)
    ensures (a + 50) % 50 == a % 50
  {
  }

  /** Indices of the same sign that differ by the catalogue size select the same theme. */
  lemma ThemeAtPeriodic(i: int)
    ensures i >= 0 ==> ThemeAt(i + |THEMES|) == ThemeAt(i)
    ensures i <= 0 ==> ThemeAt(i - |THEMES|) == ThemeAt(i)
  {
    CatalogueSize();
    ModShift(Abs(i));
    assert i >= 0 ==> ThemePosition(i + |THEMES|) == ThemePosition(i);
    assert i <= 0 ==> ThemePosition(i - |THEMES|) == ThemePosition(i);
  }

  /** Periodicity stops at zero: -10 and 40 differ by 50 but select different themes. */
  lemma ThemeAtNotPeriodicAcrossZero()
    ensures ThemeAt(-10) != ThemeAt(-10 + |THEMES|)
  {
    CatalogueSize();
    assert ThemePosition(-10) == 10;
    assert ThemePosition(40) == 40;
    assert THEMES[10] == MINIMAL_MONO;
    assert THEMES[40] == ROYAL_LUXURY;
  }

  predicate IsHexDigit(c: char) {
    '0' <= c <= '9' || 'a' <= c <= 'f' || 'A' <= c <= 'F'
  }

  /** A literal colour `#RRGGBB`. */
  predicate IsHexColor(s: string) {
    && |s| == 7 && s[0] == '#'
    && IsHexDigit(s[1]) && IsHexDigit(s[2]) && IsHexDigit(s[3])
    && IsHexDigit(s[4]) && IsHexDigit(s[5]) && IsHexDigit(s[6])
  }

  /** The theme's colour text can be spliced into an element's attributes without opening a tag. */
  predicate MarkupSafe(t: Theme) {
    '<' !in t.accent && '<' !in t.highlightBg
  }

  predicate WellFormed(t: Theme) {
    IsHexColor(t.highlightBg) && MarkupSafe(t)
  }

  /** Well-formedness of the catalogue, two entries at a time in listing order. */
  lemma WellFormedRun0()
    ensures WellFormed(NEON_DARK) && WellFormed(CLEAN_BLUE)
  {
    assert WellFormed(NEON_DARK);
    assert WellFormed(CLEAN_BLUE);
  }

  lemma WellFormedRun1()
    ensures WellFormed(WARM_EMOTIONAL) && WellFormed(VIBRANT_PURPLE)
  {
    assert WellFormed(WARM_EMOTIONAL);
    assert WellFormed(VIBRANT_PURPLE);
  }

  lemma WellFormedRun2()
    ensures WellFormed(TRUST_GREEN) && WellFormed(MIDNIGHT_GOLD)
  {
    assert WellFormed(TRUST_GREEN);
    assert WellFormed(MIDNIGHT_GOLD);
  }

  lemma WellFormedRun3()
    ensures WellFormed(SUNSET_GRADIENT) && WellFormed(OCEAN_DEPTHS)
  {
    assert WellFormed(SUNSET_GRADIENT);
    assert WellFormed(OCEAN_DEPTHS);
  }

  lemma WellFormedRun4()
    ensures WellFormed(FOREST_MIST) && WellFormed(BERRY_SMOOTHIE)
  {
    assert WellFormed(FOREST_MIST);
    assert WellFormed(BERRY_SMOOTHIE);
  }

  lemma WellFormedRun5()
    ensures WellFormed(MINIMAL_MONO) && WellFormed(MINIMAL_DARK)
  {
    assert WellFormed(MINIMAL_MONO);
    assert WellFormed(MINIMAL_DARK);
  }

  lemma WellFormedRun6()
    ensures WellFormed(PAPER_WHITE) && WellFormed(SOFT_GRAY)
  {
    assert WellFormed(PAPER_WHITE);
    assert WellFormed(SOFT_GRAY);
  }

  lemma WellFormedRun7()
    ensures WellFormed(HIGH_CONTRAST) && WellFormed(MINTY_FRESH)
  {
    assert WellFormed(HIGH_CONTRAST);
    assert WellFormed(MINTY_FRESH);
  }

  lemma WellFormedRun8()
    ensures WellFormed(SOFT_LAVENDER) && WellFormed(PEACH_FUZZ)
  {
    assert WellFormed(SOFT_LAVENDER);
    assert WellFormed(PEACH_FUZZ);
  }

  lemma WellFormedRun9()
    ensures WellFormed(SKY_BLUE) && WellFormed(LEMON_CHIFFON)
  {
    assert WellFormed(SKY_BLUE);
    assert WellFormed(LEMON_CHIFFON);
  }

  lemma WellFormedRun10()
    ensures WellFormed(RETRO_YELLOW) && WellFormed(RED_POWER)
  {
    assert WellFormed(RETRO_YELLOW);
    assert WellFormed(RED_POWER);
  }

  lemma WellFormedRun11()
    ensures WellFormed(ORANGE_SODA) && WellFormed(LIME_PUNCH)
  {
    assert WellFormed(ORANGE_SODA);
    assert WellFormed(LIME_PUNCH);
  }

  lemma WellFormedRun12()
    ensures WellFormed(HOT_PINK) && WellFormed(DEEP_SPACE)
  {
    assert WellFormed(HOT_PINK);
    assert WellFormed(DEEP_SPACE);
  }

  lemma WellFormedRun13()
    ensures WellFormed(CYBERPUNK) && WellFormed(VAMPIRE_RED)
  {
    assert WellFormed(CYBERPUNK);
    assert WellFormed(VAMPIRE_RED);
  }

  lemma WellFormedRun14()
    ensures WellFormed(INDIGO_NIGHT) && WellFormed(GALAXY_VOID)
  {
    assert WellFormed(INDIGO_NIGHT);
    assert WellFormed(GALAXY_VOID);
  }

  lemma WellFormedRun15()
    ensures WellFormed(CORPORATE_BLUE) && WellFormed(SLATE_TEAL)
  {
    assert WellFormed(CORPORATE_BLUE);
    assert WellFormed(SLATE_TEAL);
  }

  lemma WellFormedRun16()
    ensures WellFormed(NAVY_GOLD) && WellFormed(STEEL_GRAY)
  {
    assert WellFormed(NAVY_GOLD);
    assert WellFormed(STEEL_GRAY);
  }

  lemma WellFormedRun17()
    ensures WellFormed(EXECUTIVE) && WellFormed(FOREST_CALM)
  {
    assert WellFormed(EXECUTIVE);
    assert WellFormed(FOREST_CALM);
  }

  lemma WellFormedRun18()
    ensures WellFormed(COFFEE_HOUSE) && WellFormed(SAND_DUNE)
  {
    assert WellFormed(COFFEE_HOUSE);
    assert WellFormed(SAND_DUNE);
  }

  lemma WellFormedRun19()
    ensures WellFormed(OLIVE_GARDEN) && WellFormed(OCEAN_BREEZE)
  {
    assert WellFormed(OLIVE_GARDEN);
    assert WellFormed(OCEAN_BREEZE);
  }

  lemma WellFormedRun20()
    ensures WellFormed(ROYAL_LUXURY) && WellFormed(ROSE_GOLD)
  {
    assert WellFormed(ROYAL_LUXURY);
    assert WellFormed(ROSE_GOLD);
  }

  lemma WellFormedRun21()
    ensures WellFormed(PLATINUM) && WellFormed(CHAMPAGNE)
  {
    assert WellFormed(PLATINUM);
    assert WellFormed(CHAMPAGNE);
  }

  lemma WellFormedRun22()
    ensures WellFormed(RUBY) && WellFormed(BUBBLEGUM)
  {
    assert WellFormed(RUBY);
    assert WellFormed(BUBBLEGUM);
  }

  lemma WellFormedRun23()
    ensures WellFormed(TROPICAL_PUNCH) && WellFormed(CHERRY_BLOSSOM)
  {
    assert WellFormed(TROPICAL_PUNCH);
    assert WellFormed(CHERRY_BLOSSOM);
  }

  lemma WellFormedRun24()
    ensures WellFormed(GRAPE_SODA) && WellFormed(PASTEL_DREAM)
  {
    assert WellFormed(GRAPE_SODA);
    assert WellFormed(PASTEL_DREAM);
  }

  /** Catalogue entries 0 to 9 are well formed. */
  lemma CatalogueBlock0()
    ensures forall k | 0 <= k < 10 :: WellFormed(THEMES[k])
  {
    WellFormedRun0();
    WellFormedRun1();
    WellFormedRun2();
    WellFormedRun3();
    WellFormedRun4();
  }

  /** Catalogue entries 10 to 19 are well formed. */
  lemma CatalogueBlock1()
    ensures forall k | 10 <= k < 20 :: WellFormed(THEMES[k])
  {
    WellFormedRun5();
    WellFormedRun6();
    WellFormedRun7();
    WellFormedRun8();
    WellFormedRun9();
  }

  /** Catalogue entries 20 to 29 are well formed. */
  lemma CatalogueBlock2()
    ensures forall k | 20 <= k < 30 :: WellFormed(THEMES[k])
  {
    WellFormedRun10();
    WellFormedRun11();
    WellFormedRun12();
    WellFormedRun13();
    WellFormedRun14();
  }

  /** Catalogue entries 30 to 39 are well formed. */
  lemma CatalogueBlock3()
    ensures forall k | 30 <= k < 40 :: WellFormed(THEMES[k])
  {
    WellFormedRun15();
    WellFormedRun16();
    WellFormedRun17();
    WellFormedRun18();
    WellFormedRun19();
  }

  /** Catalogue entries 40 to 49 are well formed. */
  lemma CatalogueBlock4()
    ensures forall k | 40 <= k < 50 :: WellFormed(THEMES[k])
  {
    WellFormedRun20();
    WellFormedRun21();
    WellFormedRun22();
    WellFormedRun23();
    WellFormedRun24();
  }

  /** Every catalogue entry has a literal `#RRGGBB` highlight and markup-safe colour text. */
  lemma CatalogueWellFormed()
    ensures forall t | t in THEMES :: WellFormed(t)
  {
    CatalogueBlock0();
    CatalogueBlock1();
    CatalogueBlock2();
    CatalogueBlock3();
    CatalogueBlock4();
  }
}
