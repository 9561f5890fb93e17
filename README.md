# Card-news maker — a Dafny model of its core

The application turns text pasted from a chat assistant into a deck of
Instagram-style "card news" slides. It:

- strips code fences from the pasted text and cuts out the JSON object;
- validates the object and fills in defaults;
- shows the slides one at a time in one of fifty colour themes;
- lets the user edit a slide's header and body as rich text;
- saves one card, or all cards, as PNG images.

This project models that core:

| module | file | what it models |
|---|---|---|
| `Types` | `types.dfy` | slides, text styles, the deck record, the topic categories and the allowed slide counts |
| `Themes` | `themes.dfy` | the fifty-theme catalogue and the lookup `THEMES[Math.abs(i) % 50]` |
| `Markup` | `markup.dfy` | the pure text pipeline of the card component (details below) |
| `ClassColors` | `class_colors.dfy` | resolving a Tailwind text-colour class to a hex colour; the export branch computes this for the theme's `highlightText` but never reads the result |
| `Editor` | `editor.dfy` | the card component's edit state (details below) |
| `Json`, `GeminiService` | `json.dfy`, `gemini_service.dfy` | `cleanJsonString` and `parseCardNewsJson` over a JSON value datatype |
| `App` | `app.dfy` | the page controller (details below) |

`Markup` covers:

- the markdown-to-markup conversion;
- the "already markup?" guard `/<\/?[a-z][\s\S]*>/i`;
- both branches of `processHtmlForPreview`: the on-screen branch and the export branch.

`Editor` is a class `CardEditor` holding:

- edit mode;
- two markup buffers;
- two styles.

Its methods seed the buffers from a slide, set alignment, step font sizes and apply the colour palette. Each one reports the update that the component's effect sends upward.

`App` is a class `AppState` holding the parsed deck, the index of the card on screen and the batch-download flag. It covers:

- `handleParse`;
- slide navigation;
- theme shuffling;
- slide updates;
- both download handlers, including the loop that collects the archive.

`Text` (`text.dfy`) and `Wrappers` (`wrappers.dfy`) give the string operations these need. They model the JavaScript operations exactly:

- a global `replace` is a leftmost, non-overlapping scan;
- `indexOf` and `lastIndexOf` return -1 when the character is absent;
- `substring` swaps reversed bounds;
- decimal formatting of a number.

Dafny's own operations are not used in their place.

Collaborators the code cannot see become parameters:

| in the source | in the model |
|---|---|
| `JSON.parse` | `jsonParse: string -> Option<JsonValue>`, with `None` for text that is not JSON |
| `Math.floor(Math.random() * 100)` | `roll` in 0..99 |
| `Date.now()` | `now` |
| a card's capture (html2canvas, `toDataURL`, `toBlob`) | a `Capture` value: the element is missing, the capture throws, or PNG bytes and whether a blob was produced |
| the archive writer failing | `archiveFails` |
| the browser's `queryCommandValue('fontSize')` | `queried` |
| whether a selection exists | `hasSelection` |

`types.ts` declares `Slide` without `headerStyle` and `bodyStyle`, and declares no `TextStyle`. `components/CardPreview.tsx` imports `TextStyle` from it and reads both style fields (lines 2, 270-271, 292, 295). The model follows the component: a slide carries two optional styles.

## Model

| member | source | states |
|---|---|---|
| `Types.Align.Name` | components/CardPreview.tsx:225-227 | the three alignments are named "left", "center", "right" |
| `Types.RelationshipValuesDistinct` | types.ts:16-25 | the eight topic categories carry pairwise different display strings |
| `Themes.Abs` | components/CardPreview.tsx:264 | `Math.abs`: the result is the argument or its negation, and never negative |
| `Themes.ThemePosition` | components/CardPreview.tsx:264 | the catalogue position is always in range, and an in-range index is its own position |
| `Themes.ThemeAt` | components/CardPreview.tsx:264 | every theme index, negative or huge, selects a theme of the catalogue |
| `Themes.CatalogueSize` | components/CardPreview.tsx:19-70 | the catalogue holds exactly fifty themes |
| `Themes.ThemeAtSymmetric` | components/CardPreview.tsx:264 | index `-i` selects the same theme as `i` |
| `Themes.ThemeAtPeriodic` | components/CardPreview.tsx:264 | on either side of zero, indices fifty apart select the same theme |
| `Themes.ThemeAtNotPeriodicAcrossZero` | components/CardPreview.tsx:264 | across zero the lookup is not periodic: -10 and 40 select different themes |
| `Themes.CatalogueWellFormed` | components/CardPreview.tsx:19-70 | every theme's highlight colour is a hex colour, and no theme string can open a tag inside generated markup |
| `Text.IndexOf` | services/geminiService.ts:10-11 | `indexOf`: -1 exactly when the character is absent, otherwise its first position |
| `Text.LastIndexOf` | services/geminiService.ts:15 | `lastIndexOf`: -1 exactly when absent, otherwise its last position |
| `Text.JsSubstring` | services/geminiService.ts:17 | `substring` cuts between the bounds in either order |
| `Text.NatToString` | App.tsx:205 | the decimal form of a number is non-empty, and has two or more digits from 10 up |
| `Text.NatToStringInjective` | App.tsx:237 | different numbers print differently |
| `Text.FramedInjective` | App.tsx:237 | equal names with the same prefix and suffix have the same middle |
| `Text.ReplaceAllWithout` | components/CardPreview.tsx:89 | a global replace leaves text that lacks the pattern's first character unchanged |
| `Text.ReplaceAllAbsent` | services/geminiService.ts:8 | a global replace leaves text without an occurrence of the pattern unchanged |
| `Text.ReplaceAllChars` | components/CardPreview.tsx:89 | every character of the result comes from the input or the replacement |
| `Text.ReplaceAllChanged` | components/CardPreview.tsx:89 | a replace that changes anything leaves a copy of the replacement in the result |
| `Text.ReplaceAllHead` | services/geminiService.ts:8 | a leading match is replaced and the scan resumes right after it |
| `Text.ReplaceAllSkip` | services/geminiService.ts:8 | a prefix where no match starts is copied through |
| `Text.ReplaceAllCreatesNone` | components/CardPreview.tsx:179-183 | a replacement that cannot start an occurrence of `q` creates none: `q` in the output means `q` was in the input |
| `Text.NoOccurrenceIn` | components/CardPreview.tsx:179-183 | a tag cannot occur in text assembled from pieces that cannot start it |
| `Markup.LazyClose` | components/CardPreview.tsx:90-92 | the lazy `(.*?)` stops at the first closer that no line terminator precedes, and finds none when every closer is behind a line break |
| `Markup.ReplacePairsWithout` | components/CardPreview.tsx:90-92 | a paired rewrite leaves text without its opener unchanged |
| `Markup.ReplacePairsKeepsOut` | components/CardPreview.tsx:90-92 | a character absent from the input and from both replacements is absent from the output |
| `Markup.ReplacePairsChanged` | components/CardPreview.tsx:90-92 | a paired rewrite that changes anything leaves an opening tag in the result |
| `Markup.LazyCloseAfter` | components/CardPreview.tsx:90 | the lazy match of `x` followed by the closer ends exactly at that closer |
| `Markup.ReplacePairsSingle` | components/CardPreview.tsx:90-92 | one delimited run on a line becomes opener, the same text, closer |
| `Markup.MarkdownToHtml` | components/CardPreview.tsx:86-93 | the result has no newline left, and text without `*`, `_` or newline is returned unchanged |
| `Markup.MarkdownSteps` | components/CardPreview.tsx:88-92 | the same two facts, established rewrite by rewrite |
| `Markup.ReplaceCharRemoves` | components/CardPreview.tsx:89 | after newline becomes `<br>`, no newline is left |
| `Markup.BoldRunStable` | components/CardPreview.tsx:90-92 | a bold run over text without `*` or `_` is left alone by the underline and italic rewrites |
| `Markup.MarkdownBold` | components/CardPreview.tsx:90 | `**x**` becomes `<b>x</b>` for one plain line `x` |
| `Markup.MarkdownUnderline` | components/CardPreview.tsx:91 | `__x__` becomes `<u>x</u>` |
| `Markup.NoDoubleStar` | components/CardPreview.tsx:90-92 | `*x*` contains no `**`, so the bold rewrite leaves it to the italic one |
| `Markup.MarkdownItalic` | components/CardPreview.tsx:92 | `*x*` becomes `<i>x</i>` |
| `Markup.ContainsTagLooksLikeHtml` | components/CardPreview.tsx:268 | text holding a complete tag such as `<b>` passes the guard |
| `Markup.MarkdownChanged` | components/CardPreview.tsx:268 | whenever the conversion changes its input, its output passes the guard |
| `Markup.ToEditableHtml` | components/CardPreview.tsx:268-269 | stored markup is kept unchanged, any other text becomes its markdown conversion, and what is converted either stays the same or passes the guard |
| `Markup.ToEditableHtmlIdempotent` | components/CardPreview.tsx:280 | converting converted text changes nothing |
| `Markup.ClassSpan` | components/CardPreview.tsx:180 | the opening span carries the class and the style given |
| `Markup.StyleSpan` | components/CardPreview.tsx:161 | the style-only opening span carries its style |
| `Markup.ClassSpanShape` | components/CardPreview.tsx:180 | a span built from `<`-free parts starts `<sp` and holds no further `<` |
| `Markup.StyleSpanShape` | components/CardPreview.tsx:161 | the same for the style-only span |
| `Markup.PreviewSpanOpen` | components/CardPreview.tsx:172-180 | on screen, header highlights use `accent inline`, and body highlights are coloured with the theme's highlight colour |
| `Markup.PreviewSpanOpenShape` | components/CardPreview.tsx:174-180 | for every catalogue theme the on-screen span cannot start a bold tag |
| `Markup.SpanCannotCreateBold` | components/CardPreview.tsx:179-183 | neither the span opener nor `</span>` can begin `<b>`, `</b>`, `<strong>` or `</strong>` |
| `Markup.PreviewRemovesBoldTags` | components/CardPreview.tsx:179-183 | after the four on-screen rewrites no bold tag of either spelling remains, for any input |
| `Markup.TagPairsCannotCreate` | components/CardPreview.tsx:180-183 | none of the four bold tags can begin another |
| `Markup.OpenerRewrite` | components/CardPreview.tsx:180 | rewriting an opener in `tag x close` touches only the opener |
| `Markup.CloserRewrite` | components/CardPreview.tsx:181 | rewriting the closer in `open x close` touches only the closer |
| `Markup.RunUntouched` | components/CardPreview.tsx:182-183 | a rewrite whose tag does not occur leaves the run as it is |
| `Markup.PreviewBoldRun` | components/CardPreview.tsx:179-183 | on screen, `<b>x</b>` becomes the highlight span around `x` |
| `Markup.PreviewStrongRun` | components/CardPreview.tsx:179-183 | on screen, `<strong>x</strong>` becomes the same span around `x` |
| `Markup.ExportSpanOpen` | components/CardPreview.tsx:157-167 | for export, body highlights are coloured with the highlight colour; header highlights use the accent as a colour when it holds `#`, and as a class otherwise |
| `Markup.ExportSpanOpenShape` | components/CardPreview.tsx:157-167 | for every catalogue theme the export span cannot start a bold tag |
| `Markup.ExportBoldRun` | components/CardPreview.tsx:156-168 | for export, `<b>x</b>` and `<strong>x</strong>` on one line become the export span around `x` |
| `Markup.ProcessWithoutMarkup` | components/CardPreview.tsx:95-184 | text with no `<` is shown exactly as written, in both branches |
| `Markup.ScreenRenderHasNoBoldTags` | components/CardPreview.tsx:95-96 | on screen no bold tag survives, empty input included |
| `Markup.RenderMarkdownBold` | components/CardPreview.tsx:276-280 | end to end, slide text `**x**` is shown as the theme's highlight span around `x` |
| `ClassColors.TableColorsRun0` | components/CardPreview.tsx:110-122 | the first nine class-to-colour rules answer hex colours |
| `ClassColors.TableColorsRun1` | components/CardPreview.tsx:123-135 | the next nine do |
| `ClassColors.TableColorsRun2` | components/CardPreview.tsx:136-147 | the last eight do |
| `ClassColors.TableColors` | components/CardPreview.tsx:110-147 | every rule of the table answers a `#rrggbb` colour |
| `ClassColors.HexClassFrom` | components/CardPreview.tsx:106 | finds the leftmost `text-[#rrggbb]`, or reports that there is none |
| `ClassColors.ListedFrom` | components/CardPreview.tsx:110-147 | the row the search returns is a row of the table |
| `ClassColors.ListedFromFirst` | components/CardPreview.tsx:110-147 | the row found is the first whose class the name contains, and finding none means the name contains no class of the table |
| `ClassColors.ListedFirst` | components/CardPreview.tsx:110-147 | whatever the table, when row `k` matches and no earlier row does, the search returns `k` |
| `ClassColors.ClassNamesNonEmpty` | components/CardPreview.tsx:110-147 | no rule has an empty class name, so an empty class string matches no rule |
| `ClassColors.TableColorAt` | components/CardPreview.tsx:110-147 | any single rule answers a `#rrggbb` colour |
| `ClassColors.HexClassColor` | components/CardPreview.tsx:106-107 | the six digits of a matched `text-[#rrggbb]`, behind `#`, form a `#rrggbb` colour |
| `ClassColors.TextColorFromClass` | components/CardPreview.tsx:102-150 | every class name resolves to a `#rrggbb` colour |
| `ClassColors.ArbitraryValueClass` | components/CardPreview.tsx:106-107 | `text-[#digits]` resolves to `#digits` |
| `ClassColors.NoHexClass` | components/CardPreview.tsx:106 | without `text-[#` the arbitrary-value pattern finds nothing |
| `ClassColors.UnlistedClass` | components/CardPreview.tsx:105-149 | a class with no well-formed `text-[#RRGGBB]` match (a malformed `text-[#12]` included) and no listed class falls back to `#000000` |
| `ClassColors.ListedClass` | components/CardPreview.tsx:105-147 | with no well-formed `text-[#RRGGBB]` match, the first rule the class name contains decides the colour |
| `Editor.SizesDistinct` | components/CardPreview.tsx:84 | the size scale names no size twice |
| `Editor.SizeIndex` | components/CardPreview.tsx:213 | `SIZES.indexOf`: -1 exactly for sizes off the scale, otherwise the size's position |
| `Editor.SizeIndexOf` | components/CardPreview.tsx:213 | every size on the scale is found at its own position |
| `Editor.StepFontSize` | components/CardPreview.tsx:212-216 | a size off the scale is left alone; a size on it stays on it |
| `Editor.StepFontSizeIndex` | components/CardPreview.tsx:215 | a step lands on the clamped position |
| `Editor.StepUpDown` | components/CardPreview.tsx:212-216 | one step up then one down returns to the start, except from the largest size |
| `Editor.StepMonotone` | components/CardPreview.tsx:215 | a larger step never gives a smaller size |
| `Editor.SelectionFontSize` | components/CardPreview.tsx:209-211 | the level asked of the browser is the current level plus the step, clamped to 1..7, where an unreadable or zero reading counts as 3 |
| `Editor.SelectionFontSizeSteps` | components/CardPreview.tsx:209-211 | inside 1..7 up and down cancel; the ends saturate; an unreadable or zero level counts as 3 |
| `Editor.DefaultHeaderStyle` | components/CardPreview.tsx:270 | a cover header defaults to centred `text-5xl`, any other header to left `text-3xl` |
| `Editor.PaletteCommand` | components/CardPreview.tsx:239 | a palette entry with a colour sets that colour; the entry without one clears formatting |
| `Editor.PaletteCommands` | components/CardPreview.tsx:72-82 | only the first entry clears formatting; every other entry sets a hex colour |
| `Editor.CardEditor.constructor` | components/CardPreview.tsx:258-262 | the editor starts closed, with empty buffers, a left `text-3xl` header and a left `text-xl` body |
| `Editor.CardEditor.PendingUpdate` | components/CardPreview.tsx:274 | an update is sent exactly while editing, and it carries both buffers and both styles |
| `Editor.CardEditor.SeedFrom` | components/CardPreview.tsx:267-272 | buffers are seeded through the guard, stored styles are kept, missing ones get the defaults, and edit mode is untouched |
| `Editor.CardEditor.StartEditing` | components/CardPreview.tsx:301 | entering edit mode sends the current buffers at once |
| `Editor.CardEditor.FinishEditing` | components/CardPreview.tsx:306 | leaving edit mode keeps the buffers and sends nothing more |
| `Editor.CardEditor.SetHtml` | components/CardPreview.tsx:252 | new markup replaces one buffer only, and an unchanged value sends nothing |
| `Editor.CardEditor.SetAlign` | components/CardPreview.tsx:225-227 | only the chosen field's alignment changes |
| `Editor.CssModeByName` | components/CardPreview.tsx:198 | CSS mode is off exactly for the commands named `bold`, `italic` and `underline` |
| `Editor.CardEditor.ExecCommand` | components/CardPreview.tsx:197-204 | issues the `styleWithCSS` switch and the command; the field's buffer takes the markup the browser leaves, an update is reported only on change, and nothing else moves |
| `Editor.CardEditor.PaletteClick` | components/CardPreview.tsx:238-239 | a swatch always issues a CSS-mode `foreColor` with its colour, or `removeFormat` for the swatch without one, and the buffer takes the resulting markup |
| `Editor.CardEditor.ChangeSize` | components/CardPreview.tsx:206-218 | with a selection, issues a CSS-mode `fontSize` with the clamped level and the buffer takes the resulting markup, styles untouched; without one, steps the field's size along the scale and leaves a size off the scale alone |
| `Json.Field` | services/geminiService.ts:30 | property access yields a value exactly for objects holding the key |
| `Json.FalsyValues` | services/geminiService.ts:40-49 | exactly null, false, 0, "" and a missing property are falsy |
| `GeminiService.CleanEmptyInput` | services/geminiService.ts:5 | empty input is cleaned to `{}` |
| `GeminiService.StripKeepsHead` | services/geminiService.ts:8 | removing fences keeps a first character that is not a backtick |
| `GeminiService.StripTailNoDouble` | services/geminiService.ts:8 | after a lone backtick, the stripped rest cannot begin with two more |
| `GeminiService.StripLeavesNoFence` | services/geminiService.ts:8 | after stripping, no three-backtick fence is left anywhere |
| `GeminiService.FirstIndex` | services/geminiService.ts:10 | the first `{` is found at its position |
| `GeminiService.LastIndex` | services/geminiService.ts:15 | the last `}` is found at its position |
| `GeminiService.NoneBefore` | services/geminiService.ts:11 | a character absent from a prefix is not found inside it |
| `GeminiService.SliceKeepsOut` | services/geminiService.ts:17 | a slice of fence-free text is fence-free |
| `GeminiService.ExtractKeepsOut` | services/geminiService.ts:10-21 | extraction never introduces a fence |
| `GeminiService.CleanLeavesNoFence` | services/geminiService.ts:4-22 | cleaned text never contains a code fence |
| `GeminiService.ExtractCutsObject` | services/geminiService.ts:14-18 | with `{` before any `[` and a later last `}`, the cut runs exactly from the first `{` through the last `}` |
| `GeminiService.ExtractReversedBraces` | services/geminiService.ts:15-17 | when the last `}` precedes the first `{`, the swapped bounds keep the text between them |
| `GeminiService.ExtractWithoutObject` | services/geminiService.ts:14-21 | text lacking `{` or `}` is kept whole |
| `GeminiService.ExtractArrayFirst` | services/geminiService.ts:14 | text whose first bracket is `[` is kept whole |
| `GeminiService.ExtractFramed` | services/geminiService.ts:10-18 | prose without brackets around one object is cut away, leaving exactly the object |
| `GeminiService.CleanBareObject` | services/geminiService.ts:4-22 | unfenced pasted text cleans to the object it frames |
| `GeminiService.StripSkipsPlain` | services/geminiService.ts:8 | removing a fence copies a prefix without backticks through unchanged |
| `GeminiService.ClosingFenceNotOpening` | services/geminiService.ts:8 | a closing fence not followed by `json` is never taken for an opening fence |
| `GeminiService.OpeningFenceOnlyOnce` | services/geminiService.ts:8 | after the opening fence, the first pass finds nothing more to remove |
| `GeminiService.StripAfterPlain` | services/geminiService.ts:8 | the first fence after backtick-free text is removed and the scan continues after it |
| `GeminiService.OpeningFenceRemoved` | services/geminiService.ts:8 | the first pass removes exactly the opening ```json fence |
| `GeminiService.ClosingFenceRemoved` | services/geminiService.ts:8 | the second pass removes exactly the closing ``` fence |
| `GeminiService.FencesStripped` | services/geminiService.ts:8 | both passes together leave the prose before, inside and after the block with only the two fences gone |
| `GeminiService.CleanFencedObject` | services/geminiService.ts:4-22 | a reply of prose, a ```json block holding the object with text around it inside the fence, and more prose cleans back to the object itself, when the prose has no backtick, no brace on the wrong side, no `[` before the object, and the text after the block does not begin with `json` |
| `GeminiService.TextOr` | services/geminiService.ts:41-42 | a non-empty string is kept; a falsy value gives the fallback |
| `GeminiService.PageNumberOr` | services/geminiService.ts:40 | a non-zero number is kept; a falsy value gives the 1-based position |
| `GeminiService.HashtagsOf` | services/geminiService.ts:49 | missing or falsy hashtags become the empty list; for an array, the tags are exactly its strings, and an all-string array is kept element for element |
| `GeminiService.StringItems` | services/geminiService.ts:49 | every tag is a string of the array and every string of the array is a tag; an all-string array is kept element for element |
| `GeminiService.StringItemsConcat` | services/geminiService.ts:49 | keeping the strings of two joined arrays joins their strings, so the array's order is kept |
| `GeminiService.ThemeIndexOf` | services/geminiService.ts:51 | a missing theme index stays missing; a numeric one is kept |
| `GeminiService.NormalizeSlide` | services/geminiService.ts:39-43 | a validated slide never carries stored styles |
| `GeminiService.ParseCardNewsJson` | services/geminiService.ts:24-58 | every failure is reported with the one fixed message |
| `GeminiService.ValidateAccepts` | services/geminiService.ts:30-43 | the structural checks pass exactly when `slides` is a non-empty array with no null element |
| `GeminiService.ParseFailsExactly` | services/geminiService.ts:27-36 | parsing fails exactly for non-JSON text and for slides that are missing, not an array, empty, or hold a null |
| `GeminiService.ParseKeepsSlides` | services/geminiService.ts:39-43 | a success keeps every slide in order, with its truthy fields and the defaults for falsy ones |
| `GeminiService.ParseDeckDefaults` | services/geminiService.ts:45-52 | a non-empty topic, audience or tone string reaches the deck and a falsy one takes its default; the deck's hashtags are `HashtagsOf` of the given field (falsy gives `[]`); a theme index is kept only when given |
| `App.WithTheme` | App.tsx:104-106 | a deck without a theme index takes the roll; one with an index is unchanged |
| `App.ParsedDeckNonEmpty` | App.tsx:101-108 | a deck that parsing accepts always has a slide to show |
| `App.BatchIndices` | App.tsx:225-240 | at most one archive entry per card |
| `App.BatchEntries` | App.tsx:225-240 | one entry per collected position |
| `App.BatchEntriesNamed` | App.tsx:237 | each entry is named `slide-(i+1).png` after its card and holds that card's image |
| `App.BatchIndicesIncreasing` | App.tsx:225 | cards are collected in increasing order, all in range, and every card that yields a blob is collected |
| `App.BatchAllCaptured` | App.tsx:225-240 | when every card yields a blob, the archive has one entry per card, in order |
| `App.BatchNamesDistinct` | App.tsx:237 | no two entries share a name, so none overwrites another |
| `App.SetField` | App.tsx:178-181 | the named text field takes the value, and everything else on the slide is kept |
| `App.AsWiredDropsEdits` | App.tsx:174-181 | as wired, an edit whose header is not literally "header" or "body" leaves the slide unchanged |
| `App.AsWiredLosesBoldTitle` | App.tsx:433 | a concrete lost edit: bolding the cover title "Hi" leaves it "Hi" |
| `App.EditedSlide` | components/CardPreview.tsx:12 | the intended update stores both buffers and both styles, and keeps the page number |
| `App.EditRoundTrip` | components/CardPreview.tsx:267-274 | storing an edit and seeding the editor from the result gives back the editor's buffers and styles |
| `App.AppState.CurrentSlide` | App.tsx:430 | the slide on screen belongs to the deck |
| `App.AppState.constructor` | App.tsx:81-83 | starts with no deck, index 0, not downloading |
| `App.AppState.HandleParse` | App.tsx:90-119 | blank input only alerts; otherwise the index resets, and the deck becomes the parsed deck with a theme index, or nothing with the fixed failure alert; the index stays valid |
| `App.AppState.NextSlide` | App.tsx:153-157 | advances by one unless on the last card or without a deck |
| `App.AppState.PrevSlide` | App.tsx:159-163 | steps back by one unless on the first card |
| `App.AppState.ShuffleTheme` | App.tsx:165-172 | only the theme index changes, to the roll; without a deck nothing changes |
| `App.AppState.HandleUpdateSlide` | App.tsx:174-187 | only the named field of the slide on screen changes |
| `App.AppState.OnUpdateAsWired` | App.tsx:433 | the component's update, routed as the page wires it, changes the slide as `AsWiredSlide` says |
| `App.AppState.ApplyEdit` | App.tsx:174-187 | the intended update stores the edited slide in place, and nothing else changes |
| `App.AppState.HandleDownloadCurrent` | App.tsx:190-213 | no element: nothing; a failed capture: the alert; otherwise `card-news-(index+1).png` with the captured image |
| `App.AppState.HandleDownloadAll` | App.tsx:216-252 | without a deck nothing happens; otherwise one archive of the collected entries, or the alert when any capture or the archiving fails; the flag ends down; deck and index are unchanged |

## Left out

- Rendering (JSX, Tailwind classes, the blob backgrounds, the cover rule), scrolling, the guide panel, the clipboard copy of the system prompt and the sample-data loader are markup or browser glue with nothing to state.
- The `loading` flag is set and cleared within one synchronous call, so it is not modelled.
- `document.execCommand` and the browser's own rewriting of the editable area are outside the model. A toolbar action is `Editor.CardEditor.ExecCommand`: the calls it makes are its result, and the markup the browser leaves is a parameter.
- React scheduling is out of scope. `Editor.CardEditor.SeedFrom` reports an update on every seed, while React fires the effect only when a buffer or style actually changes. This over-approximates when updates are sent.
- `Editor.CardEditor.ChangeSize`: whether a selection exists, and the level the browser reports, are parameters; the markup the browser writes is taken as given.
- JavaScript strings are sequences of UTF-16 code units, while Dafny `char`s are Unicode scalar values. `length`, `indexOf`, `lastIndexOf` and `substring` therefore count differently on text outside the Basic Multilingual Plane (emoji, say). The model counts characters.
- `GeminiService.TextOr`: a truthy field of the wrong type (a number as the header, say) is kept as is by the code and replaced by the default in the model, because slides hold strings.
- `GeminiService.PageNumberOr`: a truthy non-number page number (a string, say) is replaced by the position, for the same reason.
- `GeminiService.HashtagsOf`: a truthy non-array hashtags value becomes the empty list, and non-string tags are dropped.
- `GeminiService.ThemeIndexOf`: a string or object theme index counts as absent and receives the roll. `null` and booleans read as 0 and 1, as the theme lookup later sees them.
- JSON numbers are integers; fractional page numbers and theme indices are not represented. The JSON parser itself is a parameter.
- The theme strings contain no `$`, so the special replacement patterns of JavaScript's `replace` are not modelled.
- `App.AppState.OnUpdateAsWired`: a header reading exactly "pageNumber", "headerStyle" or "bodyStyle" would overwrite that property with a string; the model leaves the slide unchanged in those cases. Every other header adds an extra property the model does not represent.
- The page never passes `forExport` (App.tsx:413-433), so the export branch is modelled as the component defines it but never reached by the page. The capture step takes its PNG as given.
- Switching slides does not reset the editor's edit mode: the component has no `key`, so one `CardEditor` lives on and is re-seeded. The model follows the code.
- `App.AppState.HandleDownloadAll` and `App.AppState.HandleDownloadCurrent` are `async`, and other handlers (a slide change, a theme shuffle, a new parse) can run at each `await`. The model runs each handler as one atomic step. The `capture` function stands for whatever the page shows at each position when that capture runs, so interleaved state changes are not modelled.
- Images, blobs, the archive library, `saveAs`, the anchor-click download and console logging are represented only by the `Capture`, `Download` and `Archive` values.
- card_news_flutter/android/app/build.gradle.kts is build configuration and is not part of this model.

## Findings

| source | as written | input that shows it | evidently intended | confidence | as-written member | corrected member |
|---|---|---|---|---|---|---|
| App.tsx:433 | the card calls `onUpdate(header, body, headerStyle, bodyStyle)` (components/CardPreview.tsx:12, 274), but the page passes `handleUpdateSlide(field, value)`, so the header markup becomes the property name, the body becomes its value, and both styles are dropped | cover slide header "Hi", edited to `<b>Hi</b>`: the slide's header stays "Hi" | the slide on screen takes both edited buffers and both styles | high; not executed | `App.AsWiredLosesBoldTitle` | `App.AppState.ApplyEdit` |
