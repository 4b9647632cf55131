# odt2moinmoin in Dafny

A model of `odt2moinmoin.py`, the converter from OpenDocument Text to MoinMoin
wiki markup, together with proofs about it.

The converter object (`OpenDocumentTextFile`) works in two stages:

- **Loading.** It reads two parsed XML documents, `styles.xml` and then
  `content.xml`. From each it collects:
  - the fixed-pitch font faces;
  - the `text` and `paragraph` styles, each paired with its italic/bold/fixed,
    heading, title, indentation and code flags;
  - the list styles, each with its ordered flag.
- **Rendering.** It walks the body of the content document and writes MoinMoin
  markup:
  - paragraphs, titles and headings;
  - code blocks `{{{ … }}}`;
  - bullet and numbered lists;
  - `||` tables;
  - links, pictures and styled inline runs;
  - footnotes: a `^mark^` inline, collected into a `----` section at the end.

  A last pass, `compressCodeBlocks`, drops white-space lines that sit between
  two lines indented by four spaces.

The project has these modules:

- `Results`: the `Result` type, with the three exceptions the model represents
  (IndexError, AttributeError, ValueError), and `Option`.
- `Strings`: Python's `strip`, `startswith`, `c * n`, `split`, `join`, `int()`
  and `float()`. They use Python 2.7's own white-space set. The conversions
  cover the forms listed under "Left out".
- `Dom`: the parsed XML (text and element nodes), `getAttribute`, `childNodes`
  and `getElementsByTagName`.
- `CodeBlocks`: `compressCodeBlocks` as a function, with its properties.
- `Styles`: the property records, and the pure rules of `processFontDeclarations`,
  `extractTextProperties`, `extractParagraphProperties`, `processStyles`,
  `processListStyles` and `load`, with lemmas about which declaration wins.
- `Render`: the renderers (`textToString`, `paragraphToString`,
  `wrapParagraph`, `listToString`, `tableToString`, `toString`) as functions.
  Each takes what the renderer reads and the two fields it changes, the footnote
  list and the title flag. It returns the text with the new field values, or the
  exception that stops the conversion.
- `RenderProperties`: lemmas about the renderers. Footnotes are only appended and
  the title flag is never cleared. Also covered: the note, inline, space, link,
  picture, paragraph and list rules, and the footnote section.
- `Converter`: the class `OpenDocumentTextFile`, with its fields updated in place
  by methods that follow the source's loops and recursion. Each method is proved
  to agree with the function that specifies it.

Python exceptions are results, not preconditions:

- an `[0]` on an empty node list gives IndexError;
- `tagName` or `getAttribute` on a text node gives AttributeError;
- `int()` of a bad outline level gives ValueError.

Where the code's behaviour may be unexpected, the model follows it:

- The code-block pass is not idempotent. Every run puts one more newline in
  front of the text (`CodeBlocks.NeverIdempotent`).
- An inline run whose style name is not registered gets the default style, so
  it is written plain. The `/name/` marker branch cannot run, because a
  `TextProps` object is always true (`RenderProperties.UnknownStyleIsPlain`).
- An inline run whose content is only white space emits nothing at all
  (`RenderProperties.BlankInlineEmitsNothing`).
- A heading level taken from a `Heading_20_n` style name is stored but never
  read. Headings come only from `text:outline-level`
  (`RenderProperties.StyleHeadingLevelUnused`).
- A non-integer `text:outline-level` raises ValueError; it is not treated as
  absent (`RenderProperties.BadOutlineLevel`).
- A parent style is looked up but never applied (`Styles.ParentIgnored`).
- A comma is missing after `'draw:a'` in `IGNORED_TAGS`, so the list holds
  `"draw:adraw:g"`. Neither `draw:a` nor `draw:g` is ignored
  (`Render.IgnoredLiterals`).
- An unknown tag is written as `" {tag} "`, with a space on each side.

## Model

| member | source | states |
|---|---|---|
| `Strings.StripLeftRemovesSpace` | contrib/odt2zwiki/odt2moinmoin.py:460 | `lstrip` removes exactly the longest white-space prefix: what remains is a suffix that does not start with white space |
| `Strings.StripRightRemovesSpace` | contrib/odt2zwiki/odt2moinmoin.py:460 | `rstrip` removes exactly the longest white-space suffix |
| `Strings.StripEmptyIffBlank` | contrib/odt2zwiki/odt2moinmoin.py:419 | `s.strip()` is empty iff every character of `s` is white space; otherwise it starts and ends with a non-space |
| `Strings.Repeat` | contrib/odt2zwiki/odt2moinmoin.py:376 | `c * n` has `n` copies of `c`, and none when `n` is below one |
| `Strings.Split` | contrib/odt2zwiki/odt2moinmoin.py:257 | `split` on one character returns at least one piece, and no piece holds the separator |
| `Strings.JoinSplit` | contrib/odt2zwiki/odt2moinmoin.py:257 | joining the pieces of a split with the separator gives back the original string |
| `Strings.SplitJoin` | contrib/odt2zwiki/odt2moinmoin.py:257 | splitting a join of separator-free pieces gives back the pieces |
| `Strings.DecimalSpellsValue` | contrib/odt2zwiki/odt2moinmoin.py:375 | the decimal spelling of `n` is a non-empty digit string whose value is `n` |
| `Strings.ParseIntOfDecimal` | contrib/odt2zwiki/odt2moinmoin.py:375 | `int(str(n)) == n` for every natural `n` |
| `Strings.ParseIntOfNegatedDecimal` | contrib/odt2zwiki/odt2moinmoin.py:375 | `int("-" + str(n)) == -n` |
| `Strings.ParseIntSpaceAfterSign` | contrib/odt2zwiki/odt2moinmoin.py:375 | `int("- " + str(n)) == -n`: Python 2.7 allows white space after the sign |
| `Dom.Attr` | contrib/odt2zwiki/odt2moinmoin.py:132 | `getAttribute` gives the attribute's value when present and the empty string when absent |
| `Dom.ElementsByTag` | contrib/odt2zwiki/odt2moinmoin.py:131 | every node `getElementsByTagName` returns is an element with the requested tag |
| `Dom.DescendantsAppend` | contrib/odt2zwiki/odt2moinmoin.py:131 | searching two runs of nodes in turn finds the first run's matches, then the second's |
| `Dom.ElementsByTagPreorder` | contrib/odt2zwiki/odt2moinmoin.py:131 | the matches are in preorder: each child's own match, then the matches below it, child by child |
| `Dom.ElementsByTagComplete` | contrib/odt2zwiki/odt2moinmoin.py:131 | every matching child, and every match below a child, is returned |
| `Dom.ElementsByTagExcludesSelf` | contrib/odt2zwiki/odt2moinmoin.py:131 | the element searched from is never among the matches |
| `Dom.DocumentElementsByTag` | contrib/odt2zwiki/odt2moinmoin.py:241-242 | the same for a whole document, whose root element is searched too |
| `Dom.DocumentElementsByTagRoot` | contrib/odt2zwiki/odt2moinmoin.py:241-242 | on a document the root comes first when it matches, then every match below it in preorder |
| `CodeBlocks.KeptIndicesSorted` | contrib/odt2zwiki/odt2moinmoin.py:260-265 | the indices of the lines the loop keeps are increasing and below the number of lines scanned |
| `CodeBlocks.KeptIndicesExact` | contrib/odt2zwiki/odt2moinmoin.py:260-265 | the loop keeps line `i` iff the `if` condition holds of `i` |
| `CodeBlocks.KeptLines` | contrib/odt2zwiki/odt2moinmoin.py:260-265 | the loop never keeps more lines than it has read |
| `CodeBlocks.KeptLinesAtIndices` | contrib/odt2zwiki/odt2moinmoin.py:260-265 | the kept lines are exactly the lines at the kept indices, in order |
| `CodeBlocks.Newlined` | contrib/odt2zwiki/odt2moinmoin.py:265 | each buffer entry is its line with a newline in front |
| `CodeBlocks.DroppedOnlyInsideCode` | contrib/odt2zwiki/odt2moinmoin.py:262-264 | a line is dropped iff it is white space, neither first nor last, and both neighbours start with four spaces |
| `CodeBlocks.FirstLineKept` | contrib/odt2zwiki/odt2moinmoin.py:262 | the first line is always kept, so the output is never empty |
| `CodeBlocks.ConcatNewlined` | contrib/odt2zwiki/odt2moinmoin.py:265-267 | the output is a newline followed by the kept lines joined by newlines |
| `CodeBlocks.AllKept` | contrib/odt2zwiki/odt2moinmoin.py:260-265 | when no line meets the drop condition, every line is kept in order |
| `CodeBlocks.NothingDropped` | contrib/odt2zwiki/odt2moinmoin.py:254-267 | when no line is dropped the pass returns the text with one newline put in front |
| `CodeBlocks.FrontKept` | contrib/odt2zwiki/odt2moinmoin.py:262 | the empty lines at the start of the text, and the line after them, all survive the pass |
| `CodeBlocks.SameEmptyRun` | contrib/odt2zwiki/odt2moinmoin.py:262 | the kept lines start with exactly as many empty lines as the input |
| `CodeBlocks.LeadingNewlinesGrow` | contrib/odt2zwiki/odt2moinmoin.py:254-267 | each pass adds exactly one leading newline |
| `CodeBlocks.NeverIdempotent` | contrib/odt2zwiki/odt2moinmoin.py:254-267 | compressing twice never gives the same text as compressing once |
| `Styles.FixedFontNamesMembers` | contrib/odt2zwiki/odt2moinmoin.py:131-133 | a name is collected iff some font face of fixed pitch declares it |
| `Styles.ExtractTextProperties` | contrib/odt2zwiki/odt2moinmoin.py:137-161 | italic iff `fo:font-style` is `italic`, bold iff `fo:font-weight` is `bold`, fixed iff the font name is a fixed font, all read from the first `style:text-properties`; no such element means all off |
| `Styles.ParentIgnored` | contrib/odt2zwiki/odt2moinmoin.py:142-145 | the parent style name never changes the result |
| `Styles.ExtractParagraphProperties` | contrib/odt2zwiki/odt2moinmoin.py:163-197 | title iff the name is `Title`; heading level 0 without the `Heading_20_` prefix or with a non-integer suffix, and `int` of the suffix when it is an integer; indented iff the left margin without its unit parses above 0.01; code iff the style's text properties are fixed |
| `Styles.HeadingStyleLevel` | contrib/odt2zwiki/odt2moinmoin.py:170-174 | a style named `Heading_20_` + `str(n)` has heading level `n` |
| `Styles.TextStyleEntry` | contrib/odt2zwiki/odt2moinmoin.py:204-215 | after `processStyles` a text style's entry is that of its last `text` declaration; with none, the entry is as before |
| `Styles.ParagraphStyleEntry` | contrib/odt2zwiki/odt2moinmoin.py:204-220 | the same for paragraph styles |
| `Styles.StandardKept` | contrib/odt2zwiki/odt2moinmoin.py:208 | a declaration named `Standard` never replaces the existing `Standard` entries |
| `Styles.OtherFamiliesIgnored` | contrib/odt2zwiki/odt2moinmoin.py:213-220 | declarations of any family other than `text` and `paragraph` leave both maps unchanged |
| `Styles.ListStyleOf` | contrib/odt2zwiki/odt2moinmoin.py:226-230 | ordered iff the first child is `text:list-level-style-number`; AttributeError iff the first child is text |
| `Styles.ListStyleEntry` | contrib/odt2zwiki/odt2moinmoin.py:221-232 | `processListStyles` fails iff some style starts with a text node; otherwise the last style of a name decides its entry and other names keep theirs |
| `Styles.LoadDocument` | contrib/odt2zwiki/odt2moinmoin.py:241-242 | a document without `office:font-face-decls` raises IndexError |
| `Styles.LoadKeepsStandard` | contrib/odt2zwiki/odt2moinmoin.py:235-252 | after a successful load the `Standard` text and paragraph styles are still the defaults set in `__init__` |
| `Styles.ContentStylesWin` | contrib/odt2zwiki/odt2moinmoin.py:247-252 | a text style declared in `content.xml` overrides one of the same name from `styles.xml` |
| `Render.TextStyle` | contrib/odt2zwiki/odt2moinmoin.py:423 | lookup of a text style: the registered entry, or the all-off default when the name is unknown |
| `Render.ParagraphStyle` | contrib/odt2zwiki/odt2moinmoin.py:451-454 | lookup of a paragraph style: the registered entry, or the default |
| `Render.ListStyle` | contrib/odt2zwiki/odt2moinmoin.py:274-275 | lookup of a list style: the registered entry, or unordered |
| `Render.SpaceRun` | contrib/odt2zwiki/odt2moinmoin.py:373-378 | a `text:s` only ever emits spaces: `int(text:c)` of them (none when negative), or one space when `text:c` is not an integer |
| `Render.Mark` | contrib/odt2zwiki/odt2moinmoin.py:429-437 | the mark is quote characters: five for bold italic, two for italic, three for bold, none otherwise |
| `Render.SubItems` | contrib/odt2zwiki/odt2moinmoin.py:287-288 | a child of the item is rendered iff it is tagged `text:p`, `text:h` or `text:list` |
| `Render.SubItemsAppend` | contrib/odt2zwiki/odt2moinmoin.py:287-288 | the rendered sub-items keep the children's order |
| `Render.Blocks` | contrib/odt2zwiki/odt2moinmoin.py:323-325 | a child of the document text is rendered iff it has one of the five block tags |
| `Render.BlocksAppend` | contrib/odt2zwiki/odt2moinmoin.py:323-325 | the rendered blocks keep the children's order |
| `Render.FootnoteEntries` | contrib/odt2zwiki/odt2moinmoin.py:342-343 | one `cite: body` entry per footnote, in collection order |
| `Render.FootnoteLines` | contrib/odt2zwiki/odt2moinmoin.py:339-343 | no footnote section at all iff there are no footnotes; otherwise a `----` rule followed by one entry per footnote, in order |
| `RenderProperties.TextGrows` | contrib/odt2zwiki/odt2moinmoin.py:350-447 | `textToString` only appends footnotes and never clears the title flag |
| `RenderProperties.ChildrenGrow` | contrib/odt2zwiki/odt2moinmoin.py:354-445 | the same for the loop over the children |
| `RenderProperties.NodeGrows` | contrib/odt2zwiki/odt2moinmoin.py:356-445 | the same for one child |
| `RenderProperties.NoteGrows` | contrib/odt2zwiki/odt2moinmoin.py:362-371 | the same for a note |
| `RenderProperties.ParagraphGrows` | contrib/odt2zwiki/odt2moinmoin.py:449-482 | the same for `paragraphToString` |
| `RenderProperties.ListGrows` | contrib/odt2zwiki/odt2moinmoin.py:270-297 | the same for `listToString` |
| `RenderProperties.ItemsGrow` | contrib/odt2zwiki/odt2moinmoin.py:278-296 | the same for the loop over the items |
| `RenderProperties.ItemGrows` | contrib/odt2zwiki/odt2moinmoin.py:279-295 | the same for one item |
| `RenderProperties.SubItemsGrow` | contrib/odt2zwiki/odt2moinmoin.py:289-294 | the same for the loop over an item's sub-items |
| `RenderProperties.SubItemGrows` | contrib/odt2zwiki/odt2moinmoin.py:290-294 | the same for one sub-item |
| `RenderProperties.TableGrows` | contrib/odt2zwiki/odt2moinmoin.py:299-313 | the same for `tableToString` |
| `RenderProperties.TableItemsGrow` | contrib/odt2zwiki/odt2moinmoin.py:305-312 | the same for the loop over the table's children |
| `RenderProperties.TableItemGrows` | contrib/odt2zwiki/odt2moinmoin.py:306-312 | the same for one child of the table |
| `RenderProperties.CellsGrow` | contrib/odt2zwiki/odt2moinmoin.py:310-312 | the same for the cells of a row |
| `RenderProperties.CellsRender` | contrib/odt2zwiki/odt2moinmoin.py:310-312 | cells rendering in turn as `p1 … pn` give `p1` and the delimiter, … , `pn` and the delimiter, ending in the state the last cell left |
| `RenderProperties.RowRenders` | contrib/odt2zwiki/odt2moinmoin.py:308-312 | a table row whose cells render as `p1 … pn` is a newline, the cell delimiter, then each `pi` followed by the delimiter |
| `RenderProperties.TableItemCases` | contrib/odt2zwiki/odt2moinmoin.py:306-308 | a header-row group renders as a table of its own, and any other non-row child adds nothing |
| `RenderProperties.BlocksGrow` | contrib/odt2zwiki/odt2moinmoin.py:327-337 | the same for the loop over the blocks |
| `RenderProperties.DocumentGrows` | contrib/odt2zwiki/odt2moinmoin.py:316-347 | the same for the whole of `toString` |
| `RenderProperties.DocumentWithoutBody` | contrib/odt2zwiki/odt2moinmoin.py:318-319 | no `office:body`, or a body without children, raises IndexError |
| `RenderProperties.NoteAddsOneFootnote` | contrib/odt2zwiki/odt2moinmoin.py:362-371 | a note emits `^cite^` and appends exactly one footnote (its citation and its rendered body) after the footnotes its body added |
| `RenderProperties.NoteWithoutParts` | contrib/odt2zwiki/odt2moinmoin.py:363-367 | a note without a citation or a body, or with an empty one, raises IndexError |
| `RenderProperties.FootnoteSectionEntries` | contrib/odt2zwiki/odt2moinmoin.py:339-343 | with `n` footnotes the section is `----` and then `n` entries, entry `i` being `cite: body` of footnote `i` |
| `RenderProperties.InlineRunCases` | contrib/odt2zwiki/odt2moinmoin.py:416-441 | a blank inline run emits nothing; a fixed one is wrapped in backticks; any other is framed by its mark with a trailing space |
| `RenderProperties.UnknownStyleIsPlain` | contrib/odt2zwiki/odt2moinmoin.py:422-441 | an inline run whose style is not registered is written as its text and a space |
| `RenderProperties.BlankInlineEmitsNothing` | contrib/odt2zwiki/odt2moinmoin.py:416-420 | an inline element whose content is only white space adds nothing to the text |
| `RenderProperties.IgnoredEmitsNothing` | contrib/odt2zwiki/odt2moinmoin.py:413-414 | an ignored element adds nothing and changes nothing |
| `RenderProperties.SpaceRunCount` | contrib/odt2zwiki/odt2moinmoin.py:374-376 | `text:c` = `str(n)` emits exactly `n` spaces |
| `RenderProperties.SpaceRunNegative` | contrib/odt2zwiki/odt2moinmoin.py:374-376 | a negative count emits no space at all |
| `RenderProperties.SpaceRunMissing` | contrib/odt2zwiki/odt2moinmoin.py:377-378 | a missing count emits one space |
| `RenderProperties.LinkLabelledByTarget` | contrib/odt2zwiki/odt2moinmoin.py:388-389 | a link whose label is its target is written `[target] ` |
| `RenderProperties.PictureUnderBaseURL` | contrib/odt2zwiki/odt2moinmoin.py:397-399 | `Pictures/name` is written as `baseURL/name` and a newline |
| `RenderProperties.SubObjectSkipped` | contrib/odt2zwiki/odt2moinmoin.py:395-396 | an image link starting with `./` emits nothing |
| `RenderProperties.TitleParagraph` | contrib/odt2zwiki/odt2moinmoin.py:458-464 | a title paragraph is `= text =` and a newline, with the text stripped unless the style is code; it sets the title flag and leaves the footnotes alone |
| `RenderProperties.OutlineHeading` | contrib/odt2zwiki/odt2moinmoin.py:466-473 | outline level `n` gives a level-`n` heading, or level `n + 1` once a title was seen |
| `RenderProperties.NegativeOutlineIsPlain` | contrib/odt2zwiki/odt2moinmoin.py:466-482 | an outline level of zero or below, with no title seen, gives a plain paragraph, even in a code style |
| `RenderProperties.BadOutlineLevel` | contrib/odt2zwiki/odt2moinmoin.py:466-469 | an outline level that is not an integer raises ValueError |
| `RenderProperties.CodeParagraph` | contrib/odt2zwiki/odt2moinmoin.py:475-476 | a code paragraph without an outline level is fenced by `{{{`/`}}}` with its text unstripped |
| `RenderProperties.PlainParagraph` | contrib/odt2zwiki/odt2moinmoin.py:478-482 | any other paragraph is its stripped text, after two spaces when indented |
| `RenderProperties.StyleHeadingLevelUnused` | contrib/odt2zwiki/odt2moinmoin.py:459-482 | the heading level stored in a paragraph style has no effect on the output |
| `RenderProperties.IndentUnused` | contrib/odt2zwiki/odt2moinmoin.py:485-494 | `wrapParagraph` returns before its loop, so the indent has no effect |
| `RenderProperties.UnknownParagraphStyle` | contrib/odt2zwiki/odt2moinmoin.py:451-482 | a paragraph with an unregistered style and no outline level is its stripped text |
| `RenderProperties.ItemShape` | contrib/odt2zwiki/odt2moinmoin.py:279-295 | a list item starts with the indent and the bullet, and has more after it |
| `RenderProperties.NestedListIndented` | contrib/odt2zwiki/odt2moinmoin.py:279-295 | an item holding one nested list is the indent, the bullet, a newline, the list rendered at `indent + 3`, and a newline; an exception from the nested list is the item's |
| `RenderProperties.NestedParagraphIndented` | contrib/odt2zwiki/odt2moinmoin.py:279-295 | an item holding one paragraph is the indent, the bullet, the paragraph rendered at `indent + 3`, and a newline; an exception from the paragraph is the item's |
| `RenderProperties.EmptyItem` | contrib/odt2zwiki/odt2moinmoin.py:279-295 | an empty item is the indent, the bullet and a newline |
| `RenderProperties.UnknownListStyle` | contrib/odt2zwiki/odt2moinmoin.py:274-275 | a list with an unregistered style is rendered unordered |
| `Converter.OpenDocumentTextFile.constructor` | contrib/odt2zwiki/odt2moinmoin.py:114-122 | no footnotes, no title, only the `Standard` styles, no list styles or fixed fonts, base URL `BaseURL` |
| `Converter.OpenDocumentTextFile.ProcessFontDeclarations` | contrib/odt2zwiki/odt2moinmoin.py:127-133 | the fixed fonts of the declaration are appended in document order |
| `Converter.OpenDocumentTextFile.ProcessStyles` | contrib/odt2zwiki/odt2moinmoin.py:200-220 | the text and paragraph maps become what the style rules give for these declarations |
| `Converter.OpenDocumentTextFile.ProcessListStyles` | contrib/odt2zwiki/odt2moinmoin.py:221-232 | the list map becomes what the list-style rule gives, or the pass fails with AttributeError |
| `Converter.OpenDocumentTextFile.ProcessDocument` | contrib/odt2zwiki/odt2moinmoin.py:241-245 | fonts, styles and list styles of one document, in that order; IndexError without font declarations |
| `Converter.OpenDocumentTextFile.Load` | contrib/odt2zwiki/odt2moinmoin.py:235-252 | the registers become those of the styles document followed by the content document, which is kept for rendering |
| `Converter.OpenDocumentTextFile.CompressCodeBlocks` | contrib/odt2zwiki/odt2moinmoin.py:254-267 | the loop computes the code-block pass, whose properties are proved in `CodeBlocks` |
| `Converter.OpenDocumentTextFile.TextToString` | contrib/odt2zwiki/odt2moinmoin.py:350-447 | text, footnotes and title flag are those `textToString` specifies, or its exception |
| `Converter.OpenDocumentTextFile.NodeToString` | contrib/odt2zwiki/odt2moinmoin.py:356-445 | the same for one child node |
| `Converter.OpenDocumentTextFile.ParagraphToString` | contrib/odt2zwiki/odt2moinmoin.py:449-482 | the same for `paragraphToString` |
| `Converter.OpenDocumentTextFile.ListToString` | contrib/odt2zwiki/odt2moinmoin.py:270-297 | the same for `listToString` |
| `Converter.OpenDocumentTextFile.ItemToString` | contrib/odt2zwiki/odt2moinmoin.py:279-295 | the same for one list item |
| `Converter.OpenDocumentTextFile.SubItemsToString` | contrib/odt2zwiki/odt2moinmoin.py:289-294 | the inner loop over an item's sub-items yields what the sub-item fold yields, or its exception, and leaves the footnote and title state the fold leaves |
| `Converter.OpenDocumentTextFile.SubItemToString` | contrib/odt2zwiki/odt2moinmoin.py:290-294 | the same for one sub-item of a list item |
| `Converter.OpenDocumentTextFile.TableToString` | contrib/odt2zwiki/odt2moinmoin.py:299-313 | the same for `tableToString` |
| `Converter.OpenDocumentTextFile.TableItemToString` | contrib/odt2zwiki/odt2moinmoin.py:306-312 | the same for one child of a table: header rows recurse, a row gives a new line, the cell delimiter and its cells, anything else nothing |
| `Converter.OpenDocumentTextFile.RowToString` | contrib/odt2zwiki/odt2moinmoin.py:309-312 | the same for the cells of one table row |
| `Converter.OpenDocumentTextFile.BlockToString` | contrib/odt2zwiki/odt2moinmoin.py:328-335 | the same for one top-level block, dispatched on its tag |
| `Converter.OpenDocumentTextFile.AppendFootnotes` | contrib/odt2zwiki/odt2moinmoin.py:339-343 | the footnote section is appended to the buffer |
| `Converter.OpenDocumentTextFile.ToString` | contrib/odt2zwiki/odt2moinmoin.py:316-347 | the output and the final footnotes and title flag are those of the document specification, or its exception |
| `Converter.Open` | contrib/odt2zwiki/odt2moinmoin.py:114-124 | constructing the converter loads both documents; it fails exactly when `load` does |

## Left out

- Opening the zip archive, parsing the XML, encoding the output as UTF-8 and the
  `__main__` block are not modelled. The two parsed documents are parameters.
- `odf.namespaces` and `odf.elementtypes` are not part of this model. The
  `empty_elements` and `inline_elements` names they supply are constructor
  parameters, already qualified.
- XML comments, CDATA sections and processing instructions are not modelled.
- `__str__` of `TextProps` and `ParagraphProps` is debugging output and is left out.
- `FOOTNOTE_STYLES` and `footnoteCounter` are never read by the converter and are
  left out.
- The word-wrapping loop of `wrapParagraph` comes after an unconditional
  `return` and never runs, so it is left out.
- The list counter `number` is computed but never used, so it is left out.
- The `/name/` marker branch of the inline rule cannot run, so it is left out.
- `float()` is modelled for finite decimal notation only: sign, digits, point and
  exponent. Values are compared exactly, as real numbers. `inf`, `nan`,
  underscores and binary rounding are not modelled.
- `int()` accepts only ASCII digits here; Python 2 also accepts other Unicode
  decimal digits. `float()` does not accept them here either.
- Strings.Repeat: gives `n` copies for every `n`. Python raises OverflowError
  beyond `sys.maxsize`, and MemoryError when the result cannot be allocated.
  Neither limit is modelled.
- Render.SpaceRun: its length clause gives `n` spaces for every integer count
  `n`; the `sys.maxsize` and memory limit below is not modelled.
- RenderProperties.SpaceRunCount: states `n` spaces for every natural `n`. In the
  source, a count beyond `sys.maxsize` or available memory is caught by the bare
  `except` and gives one space; that limit is not modelled.
- RenderProperties.OutlineHeading: states a heading for every positive level. In
  the source, `"=" * level` beyond `sys.maxsize` or available memory raises an
  uncaught exception; that limit is not modelled.
- Before `Load`, `content` holds a placeholder text node.
- Python's recursion limit is not modelled. Content nested about a thousand
  levels deep makes the recursion of `textToString`, `listToString`,
  `tableToString` and `getElementsByTagName` raise RuntimeError. The model
  renders such content in full.
- The state of the object after an exception is not described.
- Converter.OpenDocumentTextFile.ToString: after an exception only the exception
  is stated, not the footnotes or title flag left behind.
- Converter.OpenDocumentTextFile.TextToString: after an exception only the
  exception is stated.
- Converter.OpenDocumentTextFile.NodeToString: after an exception only the
  exception is stated.
- Converter.OpenDocumentTextFile.ParagraphToString: after an exception only the
  exception is stated.
- Converter.OpenDocumentTextFile.ListToString: after an exception only the
  exception is stated.
- Converter.OpenDocumentTextFile.ItemToString: after an exception only the
  exception is stated.
- Converter.OpenDocumentTextFile.SubItemsToString: after an exception only the
  exception is stated.
- Converter.OpenDocumentTextFile.SubItemToString: after an exception only the
  exception is stated.
- Converter.OpenDocumentTextFile.TableToString: after an exception only the
  exception is stated.
- Converter.OpenDocumentTextFile.TableItemToString: after an exception only the
  exception is stated.
- Converter.OpenDocumentTextFile.RowToString: after an exception only the
  exception is stated.
- Converter.OpenDocumentTextFile.BlockToString: after an exception only the
  exception is stated.
- Converter.OpenDocumentTextFile.ProcessListStyles: after AttributeError the
  partly updated list map is not stated.
- Converter.OpenDocumentTextFile.ProcessDocument: after an exception the partly
  updated registers are not stated.
- Converter.OpenDocumentTextFile.Load: after an exception the partly updated
  registers are not stated.
