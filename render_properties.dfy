/** What the renderers promise: footnotes are only ever appended and the
    title flag is never cleared; each note adds one footnote and emits its
    mark; the inline, paragraph, list, picture and space rules; and the shape
    of the footnote section. */
module RenderProperties {
  import opened Results
  import opened Strings
  import opened Dom
  import opened Styles
  import opened Render

  /** `b` is `a` after more rendering: the footnote list has only grown at
      its end and a set title flag stays set. */
  predicate Extends(a: RenderState, b: RenderState) {
    a.footnotes <= b.footnotes && (a.hasTitle ==> b.hasTitle)
  }

  /** A successful rendering started in `st` ends in a state extending it. */
  predicate Grows(st: RenderState, r: Result<Rendered>) {
    r.Ok? ==> Extends(st, r.value.st)
  }

  lemma ExtendsTransitive(a: RenderState, b: RenderState, c: RenderState)
    requires Extends(a, b) && Extends(b, c)
    ensures Extends(a, c)
  {
    assert a.footnotes == b.footnotes[..|a.footnotes|];
    assert b.footnotes == c.footnotes[..|b.footnotes|];
  }

  lemma PrependGrows(st: RenderState, mid: RenderState, s: string, r: Result<Rendered>)
    requires Extends(st, mid) && Grows(mid, r)
    ensures Grows(st, Prepend(s, r))
  {
    if r.Ok? {
      ExtendsTransitive(st, mid, r.value.st);
    }
  }

  // ---------------------------------------------------------------- text and paragraphs

  lemma {:induction false} TextGrows(env: Env, st: RenderState, e: Node)
    ensures Grows(st, TextOf(env, st, e))
    decreases Size(e), 1
  {
    ChildrenGrow(env, st, e, 0);
  }

  lemma {:induction false} ChildrenGrow(env: Env, st: RenderState, e: Node, k: nat)
    requires k <= |Children(e)|
    ensures Grows(st, ChildrenFrom(env, st, e, k))
    decreases Size(e), 0, |Children(e)| - k
  {
    if k < |Children(e)| {
      ChildSmaller(e, k);
      var r := NodeText(env, st, Children(e)[k]);
      NodeGrows(env, st, Children(e)[k]);
      if r.Ok? {
        ChildrenGrow(env, r.value.st, e, k + 1);
        PrependGrows(st, r.value.st, r.value.text, ChildrenFrom(env, r.value.st, e, k + 1));
      }
    }
  }

  lemma {:induction false} NodeGrows(env: Env, st: RenderState, node: Node)
    ensures Grows(st, NodeText(env, st, node))
    decreases Size(node), 3
  {
    if node.Element? {
      var tag := node.tag;
      if tag == "text:note" {
        NoteGrows(env, st, node);
      } else if tag == "text:p" || tag == "text:h" {
        ParagraphGrows(env, st, node, 0);
      } else if tag == "text:a" || tag == "draw:text-box" || tag == "draw:frame" || tag in env.inlineTags {
        TextGrows(env, st, node);
      }
    }
  }

  lemma {:induction false} NoteGrows(env: Env, st: RenderState, note: Node)
    ensures Grows(st, NoteText(env, st, note))
    decreases Size(note), 2
  {
    var cites := ElementsByTag(note, "text:note-citation");
    var bodies := ElementsByTag(note, "text:note-body");
    if cites != [] && Children(cites[0]) != [] && bodies != [] && Children(bodies[0]) != [] {
      ElementsByTagSmaller(note, "text:note-body", 0);
      ChildSmaller(bodies[0], 0);
      var body := Children(bodies[0])[0];
      TextGrows(env, st, body);
      var r := TextOf(env, st, body);
      if r.Ok? {
        var fs := r.value.st.footnotes;
        var note' := fs + [Footnote(NodeValue(Children(cites[0])[0]), r.value.text)];
        assert fs == note'[..|fs|];
        ExtendsTransitive(st, r.value.st, r.value.st.(footnotes := note'));
      }
    }
  }

  lemma {:induction false} ParagraphGrows(env: Env, st: RenderState, p: Node, indent: int)
    ensures Grows(st, ParagraphOf(env, st, p, indent))
    decreases Size(p), 2
  {
    if p.Element? {
      TextGrows(env, st, p);
    }
  }

  // ---------------------------------------------------------------- lists

  lemma {:induction false} ListGrows(env: Env, st: RenderState, l: Node, indent: int)
    ensures Grows(st, ListOf(env, st, l, indent))
    decreases Size(l), 2
  {
    if l.Element? {
      ItemsGrow(env, st, l, ListStyle(env, Attr(l, "text:style-name")).ordered, indent, 0);
    }
  }

  lemma {:induction false} ItemsGrow(env: Env, st: RenderState, l: Node, ordered: bool, indent: int, k: nat)
    requires k <= |Children(l)|
    ensures Grows(st, ItemsFrom(env, st, l, ordered, indent, k))
    decreases Size(l), 1, |Children(l)| - k
  {
    if k < |Children(l)| {
      ChildSmaller(l, k);
      var r := ItemOf(env, st, Children(l)[k], ordered, indent);
      ItemGrows(env, st, Children(l)[k], ordered, indent);
      if r.Ok? {
        ItemsGrow(env, r.value.st, l, ordered, indent, k + 1);
        PrependGrows(st, r.value.st, r.value.text, ItemsFrom(env, r.value.st, l, ordered, indent, k + 1));
      }
    }
  }

  lemma {:induction false} ItemGrows(env: Env, st: RenderState, item: Node, ordered: bool, indent: int)
    ensures Grows(st, ItemOf(env, st, item, ordered, indent))
    decreases Size(item), 3
  {
    if AllElements(Children(item)) {
      SubItemsGrow(env, st, item, indent + 3, 0);
    }
  }

  lemma {:induction false} SubItemsGrow(env: Env, st: RenderState, item: Node, indent: int, k: nat)
    requires AllElements(Children(item))
    requires k <= |SubItems(Children(item))|
    ensures Grows(st, SubItemsFrom(env, st, item, indent, k))
    decreases Size(item), 2, |SubItems(Children(item))| - k
  {
    var subs := SubItems(Children(item));
    if k < |subs| {
      var sub := subs[k];
      assert sub in subs;
      MemberOfChildrenSmaller(item, sub);
      SubItemGrows(env, st, sub, indent);
      var r := SubItemOf(env, st, sub, indent);
      if r.Ok? {
        SubItemsGrow(env, r.value.st, item, indent, k + 1);
        PrependGrows(st, r.value.st, r.value.text, SubItemsFrom(env, r.value.st, item, indent, k + 1));
      }
    }
  }

  lemma {:induction false} SubItemGrows(env: Env, st: RenderState, sub: Node, indent: int)
    requires sub.Element?
    ensures Grows(st, SubItemOf(env, st, sub, indent))
    decreases Size(sub), 3
  {
    ListGrows(env, st, sub, indent);
    ParagraphGrows(env, st, sub, indent);
  }

  // ---------------------------------------------------------------- tables

  lemma {:induction false} TableGrows(env: Env, st: RenderState, t: Node)
    ensures Grows(st, TableOf(env, st, t))
    decreases Size(t), 2
  {
    TableItemsGrow(env, st, t, 0);
  }

  lemma {:induction false} TableItemsGrow(env: Env, st: RenderState, t: Node, k: nat)
    requires k <= |Children(t)|
    ensures Grows(st, TableItemsFrom(env, st, t, k))
    decreases Size(t), 1, |Children(t)| - k
  {
    if k < |Children(t)| {
      var item := Children(t)[k];
      ChildSmaller(t, k);
      if item.Element? {
        TableItemGrows(env, st, item);
        var r := TableItemOf(env, st, item);
        if r.Ok? {
          TableItemsGrow(env, r.value.st, t, k + 1);
          PrependGrows(st, r.value.st, r.value.text, TableItemsFrom(env, r.value.st, t, k + 1));
        }
      }
    }
  }

  lemma {:induction false} TableItemGrows(env: Env, st: RenderState, item: Node)
    requires item.Element?
    ensures Grows(st, TableItemOf(env, st, item))
    decreases Size(item), 3
  {
    if item.tag == "table:table-header-rows" {
      TableGrows(env, st, item);
    } else if item.tag == "table:table-row" {
      CellsGrow(env, st, item, 0);
      PrependGrows(st, st, "\n||", CellsFrom(env, st, item, 0));
    }
  }

  /** The text of a row whose cells rendered as `ps`: each cell followed by
      the `||` delimiter. */
  function CellsText(ps: seq<string>): string {
    if ps == [] then "" else ps[0] + "||" + CellsText(ps[1..])
  }

  /** Cells that render as `ps`, each starting in the state the one before it
      left (`sts`), render from the `k`th on as `CellsText` of the rest. */
  lemma {:induction false} CellsRender(env: Env, row: Node, ps: seq<string>, sts: seq<RenderState>, k: nat)
    requires |ps| == |Children(row)| && |sts| == |ps| + 1 && k <= |ps|
    requires forall i :: 0 <= i < |ps| ==> ParagraphOf(env, sts[i], Children(row)[i], 0) == Ok(Rendered(ps[i], sts[i + 1]))
    ensures CellsFrom(env, sts[k], row, k) == Ok(Rendered(CellsText(ps[k..]), sts[|ps|]))
    decreases |ps| - k
  {
    if k == |ps| {
      assert ps[k..] == [];
    } else {
      CellsRender(env, row, ps, sts, k + 1);
      assert ps[k..][0] == ps[k] && ps[k..][1..] == ps[k + 1..];
      assert (ps[k] + "||") + CellsText(ps[k + 1..]) == ps[k] + "||" + CellsText(ps[k + 1..]);
    }
  }

  /** A table row whose cells render as `ps` is a newline, `||`, and each cell
      followed by `||`. */
  lemma RowRenders(env: Env, row: Node, ps: seq<string>, sts: seq<RenderState>)
    requires row.Element? && row.tag == "table:table-row"
    requires |ps| == |Children(row)| && |sts| == |ps| + 1
    requires forall i :: 0 <= i < |ps| ==> ParagraphOf(env, sts[i], Children(row)[i], 0) == Ok(Rendered(ps[i], sts[i + 1]))
    ensures TableItemOf(env, sts[0], row) == Ok(Rendered("\n||" + CellsText(ps), sts[|ps|]))
  {
    CellsRender(env, row, ps, sts, 0);
    assert ps[0..] == ps;
  }

  /** A group of header rows renders as a table of its own; any other child
      of a table adds nothing. */
  lemma TableItemCases(env: Env, st: RenderState, item: Node)
    requires item.Element? && item.tag != "table:table-row"
    ensures item.tag == "table:table-header-rows" ==> TableItemOf(env, st, item) == TableOf(env, st, item)
    ensures item.tag != "table:table-header-rows" ==> TableItemOf(env, st, item) == Ok(Rendered("", st))
  {
  }

  lemma {:induction false} CellsGrow(env: Env, st: RenderState, row: Node, k: nat)
    requires k <= |Children(row)|
    ensures Grows(st, CellsFrom(env, st, row, k))
    decreases |Children(row)| - k
  {
    if k < |Children(row)| {
      ParagraphGrows(env, st, Children(row)[k], 0);
      var r := ParagraphOf(env, st, Children(row)[k], 0);
      if r.Ok? {
        CellsGrow(env, r.value.st, row, k + 1);
        PrependGrows(st, r.value.st, r.value.text + "||", CellsFrom(env, r.value.st, row, k + 1));
      }
    }
  }

  // ---------------------------------------------------------------- the document

  lemma {:induction false} BlocksGrow(env: Env, st: RenderState, blocks: seq<Node>, k: nat)
    requires AllElements(blocks) && k <= |blocks|
    ensures BlocksFrom(env, st, blocks, k).Ok? ==> Extends(st, BlocksFrom(env, st, blocks, k).value.st)
    decreases |blocks| - k
  {
    if k < |blocks| {
      var b := blocks[k];
      ListGrows(env, st, b, 0);
      TextGrows(env, st, b);
      TableGrows(env, st, b);
      ParagraphGrows(env, st, b, 0);
      var r := BlockOf(env, st, b);
      if r.Ok? {
        BlocksGrow(env, r.value.st, blocks, k + 1);
        var rest := BlocksFrom(env, r.value.st, blocks, k + 1);
        if rest.Ok? {
          ExtendsTransitive(st, r.value.st, rest.value.st);
        }
      }
    }
  }

  /** Converting the whole document only appends footnotes and never clears
      the title flag. */
  lemma {:induction false} DocumentGrows(env: Env, st: RenderState, root: Node)
    ensures Grows(st, DocumentOf(env, st, root))
  {
    var bodies := DocumentElementsByTag(root, "office:body");
    if bodies != [] && Children(bodies[0]) != [] {
      var kids := Children(Children(bodies[0])[0]);
      if AllElements(kids) {
        BlocksGrow(env, st, Blocks(kids), 0);
      }
    }
  }

  /** Without an `office:body`, or with an empty one, `toString` fails with
      IndexError. */
  lemma DocumentWithoutBody(env: Env, st: RenderState, root: Node)
    requires DocumentElementsByTag(root, "office:body") == []
      || Children(DocumentElementsByTag(root, "office:body")[0]) == []
    ensures DocumentOf(env, st, root) == Err(IndexError)
  {
  }

  // ---------------------------------------------------------------- footnotes

  /** A note that renders adds exactly one footnote, after those its body
      added: its citation mark and the rendering of the first child of its
      body; in the text it leaves `^mark^`. */
  lemma {:induction false} NoteAddsOneFootnote(env: Env, st: RenderState, note: Node)
    requires NoteText(env, st, note).Ok?
    ensures var cites := ElementsByTag(note, "text:note-citation");
      var bodies := ElementsByTag(note, "text:note-body");
      && cites != [] && Children(cites[0]) != [] && bodies != [] && Children(bodies[0]) != []
      && var cite := NodeValue(Children(cites[0])[0]);
      && var body := TextOf(env, st, Children(bodies[0])[0]);
      && var r := NoteText(env, st, note).value;
      && body.Ok?
      && r.text == "^" + cite + "^"
      && r.st.footnotes == body.value.st.footnotes + [Footnote(cite, body.value.text)]
      && r.st.hasTitle == body.value.st.hasTitle
      && Extends(st, body.value.st)
  {
    var bodies := ElementsByTag(note, "text:note-body");
    ElementsByTagSmaller(note, "text:note-body", 0);
    ChildSmaller(bodies[0], 0);
    TextGrows(env, st, Children(bodies[0])[0]);
  }

  /** A note without a citation or without a body fails with IndexError. */
  lemma NoteWithoutParts(env: Env, st: RenderState, note: Node)
    requires var cites := ElementsByTag(note, "text:note-citation");
      var bodies := ElementsByTag(note, "text:note-body");
      cites == [] || Children(cites[0]) == [] || bodies == [] || Children(bodies[0]) == []
    ensures NoteText(env, st, note) == Err(IndexError)
  {
  }

  /** The footnote section follows the footnotes one to one, in order, and
      exists only when there is at least one. */
  lemma FootnoteSectionEntries(fs: seq<Footnote>, i: int)
    requires 0 <= i < |fs|
    ensures FootnoteLines(fs)[0] == "----"
    ensures FootnoteLines(fs)[i + 1] == fs[i].cite + ": " + fs[i].body
    ensures |FootnoteLines(fs)| == |fs| + 1
  {
  }

  // ---------------------------------------------------------------- inline runs

  /** The three outcomes of an inline run: nothing for white space, back
      quotes for a fixed font, quote marks and a space otherwise. */
  lemma {:induction false} InlineRunCases(p: TextProps, text: string)
    ensures Blank(text) ==> InlineRun(p, text) == ""
    ensures !Blank(text) && p.fixed ==> InlineRun(p, text) == "`" + text + "`"
    ensures !Blank(text) && !p.fixed ==> InlineRun(p, text) == Mark(p) + text + Mark(p) + " "
  {
    StripEmptyIffBlank(text);
  }

  /** A run whose style is not registered is written as it is, plus a space. */
  lemma {:induction false} UnknownStyleIsPlain(env: Env, name: string, text: string)
    requires name !in env.textStyles && !Blank(text)
    ensures InlineRun(TextStyle(env, name), text) == text + " "
  {
    InlineRunCases(DefaultTextProps, text);
  }

  /** The tags `textToString` tests before the ignored and inline lists. */
  const DispatchedTags: seq<string> := ["text:note", "text:s", "text:tab", "text:a", "draw:image",
    "text:line-break", "draw:text-box", "draw:frame", "text:p", "text:h"]

  /** An inline element whose content is only white space adds nothing to
      the text, whatever its style. */
  lemma {:induction false} BlankInlineEmitsNothing(env: Env, st: RenderState, node: Node)
    requires node.Element? && node.tag in env.inlineTags
    requires node.tag !in DispatchedTags && node.tag !in env.ignoredTags
    requires TextOf(env, st, node).Ok? && Blank(TextOf(env, st, node).value.text)
    ensures NodeText(env, st, node) == Ok(Rendered("", TextOf(env, st, node).value.st))
  {
    InlineRunCases(TextStyle(env, Attr(node, "text:style-name")), TextOf(env, st, node).value.text);
  }

  /** An ignored element adds nothing and renders none of its content, even
      when it is also an inline tag. */
  lemma IgnoredEmitsNothing(env: Env, st: RenderState, node: Node)
    requires node.Element? && node.tag !in DispatchedTags && node.tag in env.ignoredTags
    ensures NodeText(env, st, node) == Ok(Rendered("", st))
  {
  }

  // ---------------------------------------------------------------- spaces, links, pictures

  /** `<text:s text:c="n"/>` gives `n` spaces. */
  lemma {:induction false} SpaceRunCount(n: nat)
    ensures SpaceRun(Decimal(n)) == Repeat(' ', n)
  {
    ParseIntOfDecimal(n);
  }

  /** A negative count gives no space at all. */
  lemma {:induction false} SpaceRunNegative(n: nat)
    ensures SpaceRun("-" + Decimal(n)) == ""
  {
    ParseIntOfNegatedDecimal(n);
  }

  /** Without `text:c` a single space is written, the default count. */
  lemma SpaceRunMissing()
    ensures SpaceRun("") == " "
  {
  }

  /** A link whose label is its own target is written once. */
  lemma LinkLabelledByTarget(link: string)
    ensures LinkText(link, link) == "[" + Strip(link) + "] "
  {
  }

  /** A picture stored in the document moves under the base URL. */
  lemma {:induction false} PictureUnderBaseURL(baseURL: string, name: string)
    ensures ImageText(baseURL, "Pictures/" + name) == baseURL + "/" + name + "\n"
  {
    var link := "Pictures/" + name;
    assert link[..9] == "Pictures/";
    assert link[..2][0] == 'P';
    assert link[9..] == name;
  }

  /** A sub-object (`./…`) is skipped. */
  lemma {:induction false} SubObjectSkipped(baseURL: string, rest: string)
    ensures ImageText(baseURL, "./" + rest) == ""
  {
    assert ("./" + rest)[..2] == "./";
  }

  // ---------------------------------------------------------------- paragraphs

  /** A paragraph in a title style is framed by single equal signs and sets
      the title flag. */
  lemma TitleParagraph(props: ParagraphProps, outline: string, inner: Rendered, indent: int)
    requires props.title
    ensures FinishParagraph(props, outline, inner, indent)
      == Ok(Rendered("= " + (if props.code then inner.text else Strip(inner.text)) + " =\n", inner.st.(hasTitle := true)))
  {
  }

  /** Outline level `n` gives a heading of level `n`, or `n + 1` once a
      title has been seen, provided that is at least one. */
  lemma {:induction false} OutlineHeading(props: ParagraphProps, n: nat, inner: Rendered, indent: int)
    requires !props.title
    requires n >= 1 || inner.st.hasTitle
    ensures var level := if inner.st.hasTitle then n + 1 else n;
      var text := if props.code then inner.text else Strip(inner.text);
      FinishParagraph(props, Decimal(n), inner, indent) == Ok(Rendered(Heading(level, text), inner.st))
  {
    ParseIntOfDecimal(n);
    DecimalSpellsValue(n);
  }

  /** A negative outline level, with no title seen, gives no heading: the
      paragraph is written as plain text, even in a code style. */
  lemma {:induction false} NegativeOutlineIsPlain(props: ParagraphProps, n: nat, inner: Rendered, indent: int)
    requires !props.title && !inner.st.hasTitle
    ensures var text := if props.code then inner.text else Strip(inner.text);
      FinishParagraph(props, "-" + Decimal(n), inner, indent) == Ok(Rendered(WrapParagraph(text, indent, props.indented), inner.st))
  {
    ParseIntOfNegatedDecimal(n);
  }

  /** An outline level that is not an integer ends the conversion. */
  lemma BadOutlineLevel(props: ParagraphProps, outline: string, inner: Rendered, indent: int)
    requires !props.title && outline != "" && ParseInt(outline) == None
    ensures FinishParagraph(props, outline, inner, indent) == Err(ValueError)
  {
  }

  /** A code paragraph without an outline level is fenced with its white
      space kept. */
  lemma CodeParagraph(props: ParagraphProps, inner: Rendered, indent: int)
    requires props.code && !props.title
    ensures FinishParagraph(props, "", inner, indent) == Ok(Rendered("{{{\n" + inner.text + "\n}}}\n", inner.st))
  {
  }

  /** Any other paragraph is its stripped text, after two spaces when the
      style is indented. */
  lemma PlainParagraph(props: ParagraphProps, inner: Rendered, indent: int)
    requires !props.code && !props.title
    ensures var text := Strip(inner.text);
      FinishParagraph(props, "", inner, indent) == Ok(Rendered(if props.indented then "  " + text else text, inner.st))
  {
    assert "" + Strip(inner.text) == Strip(inner.text);
  }

  /** The heading level taken from a `Heading_20_N` style name is never read. */
  lemma StyleHeadingLevelUnused(props: ParagraphProps, level: int, outline: string, inner: Rendered, indent: int)
    ensures FinishParagraph(props.(headingLevel := level), outline, inner, indent) == FinishParagraph(props, outline, inner, indent)
  {
  }

  /** The indentation passed down by lists never reaches the output of a
      paragraph. */
  lemma IndentUnused(env: Env, st: RenderState, p: Node, indent1: int, indent2: int)
    ensures ParagraphOf(env, st, p, indent1) == ParagraphOf(env, st, p, indent2)
  {
  }

  /** A paragraph in an unknown style, without an outline level, is its
      stripped content. */
  lemma {:induction false} UnknownParagraphStyle(env: Env, st: RenderState, p: Node, indent: int)
    requires p.Element? && Attr(p, "text:style-name") !in env.paragraphStyles
    requires Attr(p, "text:outline-level") == ""
    requires TextOf(env, st, p).Ok?
    ensures ParagraphOf(env, st, p, indent) == Ok(Rendered(Strip(TextOf(env, st, p).value.text), TextOf(env, st, p).value.st))
  {
    PlainParagraph(DefaultParagraphProps, TextOf(env, st, p).value, indent);
  }

  // ---------------------------------------------------------------- list items

  /** Every item is its indentation and bullet, its content, and a newline. */
  lemma ItemShape(env: Env, st: RenderState, item: Node, ordered: bool, indent: int)
    requires ItemOf(env, st, item, ordered, indent).Ok?
    ensures var t := ItemOf(env, st, item, ordered, indent).value.text;
      && StartsWith(t, Repeat(' ', indent) + Marker(ordered))
      && |t| > |Repeat(' ', indent) + Marker(ordered)|
      && t[|t| - 1] == '\n'
  {
  }

  /** An item holding one nested list: the indentation and bullet, a newline,
      the list rendered three spaces further in, and a closing newline. */
  lemma NestedListIndented(env: Env, st: RenderState, item: Node, ordered: bool, indent: int)
    requires AllElements(Children(item)) && |SubItems(Children(item))| == 1
    requires SubItems(Children(item))[0].tag == "text:list"
    ensures ListOf(env, st, SubItems(Children(item))[0], indent + 3).Err? ==>
      ItemOf(env, st, item, ordered, indent) == Err(ListOf(env, st, SubItems(Children(item))[0], indent + 3).crash)
    ensures ListOf(env, st, SubItems(Children(item))[0], indent + 3).Ok? ==>
      ItemOf(env, st, item, ordered, indent)
      == Ok(Rendered(Repeat(' ', indent) + Marker(ordered) + "\n" + ListOf(env, st, SubItems(Children(item))[0], indent + 3).value.text + "\n",
                     ListOf(env, st, SubItems(Children(item))[0], indent + 3).value.st))
  {
    var sub := SubItems(Children(item))[0];
    var inner := ListOf(env, st, sub, indent + 3);
    assert SubItemOf(env, st, sub, indent + 3) == Prepend("\n", inner);
    if inner.Ok? {
      var o := inner.value;
      assert SubItemsFrom(env, o.st, item, indent + 3, 1) == Ok(Rendered("", o.st));
      assert SubItemsFrom(env, st, item, indent + 3, 0) == Ok(Rendered("\n" + o.text + "", o.st));
      assert "\n" + o.text + "" == "\n" + o.text;
      var head := Repeat(' ', indent) + Marker(ordered);
      assert ItemOf(env, st, item, ordered, indent) == Ok(Rendered(head + (("\n" + o.text) + "\n"), o.st));
      assert head + (("\n" + o.text) + "\n") == head + "\n" + o.text + "\n";
    }
  }

  /** An item holding one paragraph: the indentation and bullet, the paragraph
      rendered three spaces further in, and a newline. */
  lemma NestedParagraphIndented(env: Env, st: RenderState, item: Node, ordered: bool, indent: int)
    requires AllElements(Children(item)) && |SubItems(Children(item))| == 1
    requires SubItems(Children(item))[0].tag != "text:list"
    ensures ParagraphOf(env, st, SubItems(Children(item))[0], indent + 3).Err? ==>
      ItemOf(env, st, item, ordered, indent) == Err(ParagraphOf(env, st, SubItems(Children(item))[0], indent + 3).crash)
    ensures ParagraphOf(env, st, SubItems(Children(item))[0], indent + 3).Ok? ==>
      ItemOf(env, st, item, ordered, indent)
      == Ok(Rendered(Repeat(' ', indent) + Marker(ordered) + ParagraphOf(env, st, SubItems(Children(item))[0], indent + 3).value.text + "\n",
                     ParagraphOf(env, st, SubItems(Children(item))[0], indent + 3).value.st))
  {
    var sub := SubItems(Children(item))[0];
    var inner := ParagraphOf(env, st, sub, indent + 3);
    assert SubItemOf(env, st, sub, indent + 3) == inner;
    if inner.Ok? {
      var o := inner.value;
      assert SubItemsFrom(env, o.st, item, indent + 3, 1) == Ok(Rendered("", o.st));
      assert SubItemsFrom(env, st, item, indent + 3, 0) == Ok(Rendered(o.text + "", o.st));
      assert o.text + "" == o.text;
      var head := Repeat(' ', indent) + Marker(ordered);
      assert ItemOf(env, st, item, ordered, indent) == Ok(Rendered(head + (o.text + "\n"), o.st));
      assert head + (o.text + "\n") == head + o.text + "\n";
    }
  }

  /** An item with no content is its indentation, bullet and newline. */
  lemma EmptyItem(env: Env, st: RenderState, item: Node, ordered: bool, indent: int)
    requires Children(item) == []
    ensures ItemOf(env, st, item, ordered, indent) == Ok(Rendered(Repeat(' ', indent) + Marker(ordered) + "\n", st))
  {
    assert SubItems(Children(item)) == [];
    assert "" + "\n" == "\n";
  }

  /** A list whose style is not registered is unordered. */
  lemma UnknownListStyle(env: Env, st: RenderState, l: Node, indent: int)
    requires l.Element? && Attr(l, "text:style-name") !in env.listStyles
    ensures ListOf(env, st, l, indent) == ItemsFrom(env, st, l, false, indent, 0)
  {
  }
}
