/** The renderers `textToString`, `paragraphToString`, `wrapParagraph`,
    `listToString`, `tableToString` and `toString`, written as functions of
    what they read (the settled style maps, the base URL, the ignored and
    inline tag lists) and of the two fields they change: the footnote list and
    the title flag.  Each returns the text it produces together with the new
    values of those two fields, or the exception that ends the conversion. */
module Render {
  import opened Results
  import opened Strings
  import opened Dom
  import opened Styles
  import opened CodeBlocks

  /** One collected footnote: its citation mark and its rendered body. */
  datatype Footnote = Footnote(cite: string, body: string)

  /** The two fields rendering changes: `footnotes` and `hasTitle`. */
  datatype RenderState = RenderState(footnotes: seq<Footnote>, hasTitle: bool)

  /** What rendering only reads. */
  datatype Env = Env(
    textStyles: map<string, TextProps>,
    paragraphStyles: map<string, ParagraphProps>,
    listStyles: map<string, ListProperties>,
    baseURL: string,
    ignoredTags: seq<string>,
    inlineTags: seq<string>)

  /** A rendered piece of text and the state after rendering it. */
  datatype Rendered = Rendered(text: string, st: RenderState)

  /** The literal part of `IGNORED_TAGS`.  A comma is missing after
      `'draw:a'`, so Python joins it with `'draw:g'` into one string and
      neither `draw:a` nor `draw:g` is ignored. */
  const IgnoredLiterals: seq<string> := ["draw:adraw:g", "draw:line", "draw:object-ole", "office:annotation", "svg:desc"]

  // ---------------------------------------------------------------- lookups

  /** `self.textStyles.get(name, TextProps())`. */
  function TextStyle(env: Env, name: string): (p: TextProps)
    ensures name in env.textStyles ==> p == env.textStyles[name]
    ensures name !in env.textStyles ==> p == DefaultTextProps
  {
    if name in env.textStyles then env.textStyles[name] else DefaultTextProps
  }

  /** `self.paragraphStyles.get(name, ParagraphProps())`. */
  function ParagraphStyle(env: Env, name: string): (p: ParagraphProps)
    ensures name in env.paragraphStyles ==> p == env.paragraphStyles[name]
    ensures name !in env.paragraphStyles ==> p == DefaultParagraphProps
  {
    if name in env.paragraphStyles then env.paragraphStyles[name] else DefaultParagraphProps
  }

  /** `self.listStyles.get(name, ListProperties())`. */
  function ListStyle(env: Env, name: string): (p: ListProperties)
    ensures name in env.listStyles ==> p == env.listStyles[name]
    ensures name !in env.listStyles ==> p == DefaultListProperties
  {
    if name in env.listStyles then env.listStyles[name] else DefaultListProperties
  }

  // ---------------------------------------------------------------- leaves

  /** `text:s`: `int(text:c)` spaces (none for a negative count), or a single
      space when the attribute is not an integer, as when it is absent. */
  function SpaceRun(count: string): (r: string)
    ensures forall i :: 0 <= i < |r| ==> r[i] == ' '
    ensures ParseInt(count).Some? ==> |r| == if ParseInt(count).value > 0 then ParseInt(count).value else 0
    ensures ParseInt(count) == None ==> r == " "
  {
    match ParseInt(count)
    case Some(n) => Repeat(' ', n)
    case None => " "
  }

  /** `text:a`: the stripped target in brackets, followed by the stripped
      label unless the two agree. */
  function LinkText(link: string, text: string): string {
    if Strip(link) == Strip(text) then "[" + Strip(link) + "] "
    else "[" + Strip(link) + " " + Strip(text) + "] "
  }

  /** `draw:image`: nothing for a sub-object (`./…`), the picture path moved
      under the base URL for `Pictures/…`, otherwise the link as it is; each
      followed by a newline. */
  function ImageText(baseURL: string, link: string): string {
    if StartsWith(link, "./") then ""
    else (if StartsWith(link, "Pictures/") then baseURL + "/" + link[9..] else link) + "\n"
  }

  /** The quote marks of a styled run: five for bold italic, two for italic,
      three for bold, none otherwise. */
  function Mark(p: TextProps): (m: string)
    ensures forall i :: 0 <= i < |m| ==> m[i] == '\''
    ensures |m| == if p.italic && p.bold then 5 else if p.italic then 2 else if p.bold then 3 else 0
  {
    if p.italic && p.bold then "'''''"
    else if p.italic then "''"
    else if p.bold then "'''"
    else ""
  }

  /** An inline element whose content rendered to `text`. */
  function InlineRun(p: TextProps, text: string): string {
    if Strip(text) == "" then ""
    else if p.fixed then "`" + text + "`"
    else Mark(p) + text + Mark(p) + " "
  }

  /** `wrapParagraph`: it returns before its wrapping loop, so the text comes
      back whole, after two spaces when it is a block quote. */
  function WrapParagraph(text: string, indent: int, blockquote: bool): string {
    (if blockquote then "  " else "") + text
  }

  /** A heading line of `level` equal signs on both sides. */
  function Heading(level: int, text: string): string {
    "\n" + Repeat('=', level) + " " + text + " " + Repeat('=', level) + "\n"
  }

  /** Prefix `s` to a successful rendering; an exception passes through. */
  function Prepend(s: string, r: Result<Rendered>): Result<Rendered> {
    match r
    case Err(c) => Err(c)
    case Ok(o) => Ok(Rendered(s + o.text, o.st))
  }

  /** Suffix `s` to a successful rendering; an exception passes through. */
  function Append(r: Result<Rendered>, s: string): Result<Rendered> {
    match r
    case Err(c) => Err(c)
    case Ok(o) => Ok(Rendered(o.text + s, o.st))
  }

  // ---------------------------------------------------------------- textToString

  /** `textToString(e)`: the children of `e`, rendered one after another. */
  function TextOf(env: Env, st: RenderState, e: Node): Result<Rendered>
    decreases Size(e), 1
  {
    ChildrenFrom(env, st, e, 0)
  }

  /** The children of `e` from the `k`th on. */
  function ChildrenFrom(env: Env, st: RenderState, e: Node, k: nat): Result<Rendered>
    requires k <= |Children(e)|
    decreases Size(e), 0, |Children(e)| - k
  {
    if k == |Children(e)| then Ok(Rendered("", st))
    else
      ChildSmaller(e, k);
      match NodeText(env, st, Children(e)[k])
      case Err(c) => Err(c)
      case Ok(o) => Prepend(o.text, ChildrenFrom(env, o.st, e, k + 1))
  }

  /** One child in `textToString`'s loop: the first branch that matches. */
  function NodeText(env: Env, st: RenderState, node: Node): Result<Rendered>
    decreases Size(node), 3
  {
    match node
    case Text(s) => Ok(Rendered(s, st))
    case Element(tag, _, _) =>
      if tag == "text:note" then NoteText(env, st, node)
      else if tag == "text:s" then Ok(Rendered(SpaceRun(Attr(node, "text:c")), st))
      else if tag == "text:tab" then Ok(Rendered("    ", st))
      else if tag == "text:a" then
        match TextOf(env, st, node)
        case Err(c) => Err(c)
        case Ok(o) => Ok(Rendered(LinkText(Attr(node, "xlink:href"), o.text), o.st))
      else if tag == "draw:image" then Ok(Rendered(ImageText(env.baseURL, Attr(node, "xlink:href")), st))
      else if tag == "text:line-break" then Ok(Rendered("\n", st))
      else if tag == "draw:text-box" || tag == "draw:frame" then TextOf(env, st, node)
      else if tag == "text:p" || tag == "text:h" then
        match ParagraphOf(env, st, node, 0)
        case Err(c) => Err(c)
        case Ok(o) => Ok(Rendered(if o.text == "" then "" else o.text + "\n\n", o.st))
      else if tag in env.ignoredTags then Ok(Rendered("", st))
      else if tag in env.inlineTags then
        match TextOf(env, st, node)
        case Err(c) => Err(c)
        case Ok(o) => Ok(Rendered(InlineRun(TextStyle(env, Attr(node, "text:style-name")), o.text), o.st))
      else Ok(Rendered(" {" + tag + "} ", st))
  }

  /** A `text:note`: the first child of its first `text:note-citation` gives
      the mark, the first child of its first `text:note-body` is rendered as
      the body (IndexError when either is missing or empty), the pair is
      appended to the footnotes and `^mark^` is emitted. */
  function NoteText(env: Env, st: RenderState, note: Node): Result<Rendered>
    decreases Size(note), 2
  {
    var cites := ElementsByTag(note, "text:note-citation");
    var bodies := ElementsByTag(note, "text:note-body");
    if cites == [] || Children(cites[0]) == [] then Err(IndexError)
    else if bodies == [] || Children(bodies[0]) == [] then Err(IndexError)
    else
      var cite := NodeValue(Children(cites[0])[0]);
      ElementsByTagSmaller(note, "text:note-body", 0);
      ChildSmaller(bodies[0], 0);
      match TextOf(env, st, Children(bodies[0])[0])
      case Err(c) => Err(c)
      case Ok(o) => Ok(Rendered("^" + cite + "^", o.st.(footnotes := o.st.footnotes + [Footnote(cite, o.text)])))
  }

  // ---------------------------------------------------------------- paragraphToString

  /** `paragraphToString(p, indent)`: a text node has no `getAttribute`. */
  function ParagraphOf(env: Env, st: RenderState, p: Node, indent: int): Result<Rendered>
    decreases Size(p), 2
  {
    if p.Text? then Err(AttributeError)
    else
      var props := ParagraphStyle(env, Attr(p, "text:style-name"));
      match TextOf(env, st, p)
      case Err(c) => Err(c)
      case Ok(o) => FinishParagraph(props, Attr(p, "text:outline-level"), o, indent)
  }

  /** What `paragraphToString` does once the paragraph's content is rendered
      to `inner`: the flag it tests is the one after that rendering. */
  function FinishParagraph(props: ParagraphProps, outline: string, inner: Rendered, indent: int): Result<Rendered> {
    var text := if props.code then inner.text else Strip(inner.text);
    if props.title then Ok(Rendered("= " + text + " =\n", inner.st.(hasTitle := true)))
    else if outline != "" then
      match ParseInt(outline)
      case None => Err(ValueError)
      case Some(n) =>
        var level := if inner.st.hasTitle then n + 1 else n;
        if level >= 1 then Ok(Rendered(Heading(level, text), inner.st))
        else Ok(Rendered(WrapParagraph(text, indent, props.indented), inner.st))
    else if props.code then Ok(Rendered("{{{\n" + text + "\n}}}\n", inner.st))
    else Ok(Rendered(WrapParagraph(text, indent, props.indented), inner.st))
  }

  // ---------------------------------------------------------------- listToString

  const ListItemTags: seq<string> := ["text:p", "text:h", "text:list"]

  /** The children of a list item that `listToString` renders, in order. */
  function SubItems(kids: seq<Node>): (r: seq<Node>)
    requires AllElements(kids)
    ensures forall x :: x in r ==> x in kids && x.Element? && x.tag in ListItemTags
    ensures forall x :: x in kids && x.tag in ListItemTags ==> x in r
  {
    if kids == [] then []
    else
      var last := kids[|kids| - 1];
      assert forall x :: x in kids ==> x in kids[..|kids| - 1] || x == last;
      SubItems(kids[..|kids| - 1]) + (if last.tag in ListItemTags then [last] else [])
  }

  /** The sub-items keep the order of the children: those of a first run of
      children come before those of the rest. */
  lemma {:induction false} SubItemsAppend(a: seq<Node>, b: seq<Node>)
    requires AllElements(a) && AllElements(b)
    ensures AllElements(a + b)
    ensures SubItems(a + b) == SubItems(a) + SubItems(b)
    decreases |b|
  {
    assert AllElements(a + b) by {
      forall i | 0 <= i < |a + b| ensures (a + b)[i].Element? {
        if i >= |a| { assert (a + b)[i] == b[i - |a|]; }
      }
    }
    if b == [] {
      assert a + b == a;
    } else {
      var c := a + b;
      var front := b[..|b| - 1];
      assert c[..|c| - 1] == a + front && c[|c| - 1] == b[|b| - 1];
      assert AllElements(front);
      SubItemsAppend(a, front);
    }
  }

  /** The bullet of every item: `" 1. "` in an ordered list (the counter the
      Python code computes is never used), `" * "` otherwise. */
  function Marker(ordered: bool): string {
    if ordered then " 1. " else " * "
  }

  /** `listToString(l, indent)`. */
  function ListOf(env: Env, st: RenderState, l: Node, indent: int): Result<Rendered>
    decreases Size(l), 2
  {
    if l.Text? then Err(AttributeError)
    else ItemsFrom(env, st, l, ListStyle(env, Attr(l, "text:style-name")).ordered, indent, 0)
  }

  /** The items of `l` from the `k`th on. */
  function ItemsFrom(env: Env, st: RenderState, l: Node, ordered: bool, indent: int, k: nat): Result<Rendered>
    requires k <= |Children(l)|
    decreases Size(l), 1, |Children(l)| - k
  {
    if k == |Children(l)| then Ok(Rendered("", st))
    else
      ChildSmaller(l, k);
      match ItemOf(env, st, Children(l)[k], ordered, indent)
      case Err(c) => Err(c)
      case Ok(o) => Prepend(o.text, ItemsFrom(env, o.st, l, ordered, indent, k + 1))
  }

  /** One item: the indentation, the bullet, the rendered sub-items at three
      more spaces, and a newline.  Asking a text child for its tag fails. */
  function ItemOf(env: Env, st: RenderState, item: Node, ordered: bool, indent: int): Result<Rendered>
    decreases Size(item), 3
  {
    if !AllElements(Children(item)) then Err(AttributeError)
    else Prepend(Repeat(' ', indent) + Marker(ordered), Append(SubItemsFrom(env, st, item, indent + 3, 0), "\n"))
  }

  /** The sub-items of `item` from the `k`th on. */
  function SubItemsFrom(env: Env, st: RenderState, item: Node, indent: int, k: nat): Result<Rendered>
    requires AllElements(Children(item))
    requires k <= |SubItems(Children(item))|
    decreases Size(item), 2, |SubItems(Children(item))| - k
  {
    var subs := SubItems(Children(item));
    if k == |subs| then Ok(Rendered("", st))
    else
      assert subs[k] in subs;
      MemberOfChildrenSmaller(item, subs[k]);
      match SubItemOf(env, st, subs[k], indent)
      case Err(c) => Err(c)
      case Ok(o) => Prepend(o.text, SubItemsFrom(env, o.st, item, indent, k + 1))
  }

  /** One sub-item: a nested list after a newline, a paragraph as it is. */
  function SubItemOf(env: Env, st: RenderState, sub: Node, indent: int): Result<Rendered>
    requires sub.Element?
    decreases Size(sub), 3
  {
    if sub.tag == "text:list" then Prepend("\n", ListOf(env, st, sub, indent))
    else ParagraphOf(env, st, sub, indent)
  }

  // ---------------------------------------------------------------- tableToString

  /** `tableToString(t)`. */
  function TableOf(env: Env, st: RenderState, t: Node): Result<Rendered>
    decreases Size(t), 2
  {
    TableItemsFrom(env, st, t, 0)
  }

  /** The children of `t` from the `k`th on, each rendered by `TableItemOf`;
      a text child raises AttributeError at its `tagName`. */
  function TableItemsFrom(env: Env, st: RenderState, t: Node, k: nat): Result<Rendered>
    requires k <= |Children(t)|
    decreases Size(t), 1, |Children(t)| - k
  {
    if k == |Children(t)| then Ok(Rendered("", st))
    else
      var item := Children(t)[k];
      ChildSmaller(t, k);
      if item.Text? then Err(AttributeError)
      else
        match TableItemOf(env, st, item)
        case Err(c) => Err(c)
        case Ok(o) => Prepend(o.text, TableItemsFrom(env, o.st, t, k + 1))
  }

  /** One element child of a table: header rows recurse, a row is `"\n||"`
      and its cells, anything else adds nothing. */
  function TableItemOf(env: Env, st: RenderState, item: Node): Result<Rendered>
    requires item.Element?
    decreases Size(item), 3
  {
    if item.tag == "table:table-header-rows" then TableOf(env, st, item)
    else if item.tag == "table:table-row" then Prepend("\n||", CellsFrom(env, st, item, 0))
    else Ok(Rendered("", st))
  }

  /** The cells of `row` from the `k`th on, each rendered as a paragraph and
      closed by `"||"`. */
  function CellsFrom(env: Env, st: RenderState, row: Node, k: nat): Result<Rendered>
    requires k <= |Children(row)|
    decreases |Children(row)| - k
  {
    if k == |Children(row)| then Ok(Rendered("", st))
    else
      match ParagraphOf(env, st, Children(row)[k], 0)
      case Err(c) => Err(c)
      case Ok(o) => Prepend(o.text + "||", CellsFrom(env, o.st, row, k + 1))
  }

  // ---------------------------------------------------------------- toString

  const BlockTags: seq<string> := ["text:p", "text:h", "text:section", "text:list", "table:table"]

  /** The children of the document text that `toString` renders, in order. */
  function Blocks(kids: seq<Node>): (r: seq<Node>)
    requires AllElements(kids)
    ensures AllElements(r)
    ensures forall x :: x in r ==> x in kids && x.tag in BlockTags
    ensures forall x :: x in kids && x.tag in BlockTags ==> x in r
  {
    if kids == [] then []
    else
      var last := kids[|kids| - 1];
      assert forall x :: x in kids ==> x in kids[..|kids| - 1] || x == last;
      Blocks(kids[..|kids| - 1]) + (if last.tag in BlockTags then [last] else [])
  }

  /** The blocks keep the order of the children: those of a first run of
      children come before those of the rest. */
  lemma {:induction false} BlocksAppend(a: seq<Node>, b: seq<Node>)
    requires AllElements(a) && AllElements(b)
    ensures AllElements(a + b)
    ensures Blocks(a + b) == Blocks(a) + Blocks(b)
    decreases |b|
  {
    assert AllElements(a + b) by {
      forall i | 0 <= i < |a + b| ensures (a + b)[i].Element? {
        if i >= |a| { assert (a + b)[i] == b[i - |a|]; }
      }
    }
    if b == [] {
      assert a + b == a;
    } else {
      var c := a + b;
      var front := b[..|b| - 1];
      assert c[..|c| - 1] == a + front && c[|c| - 1] == b[|b| - 1];
      assert AllElements(front);
      BlocksAppend(a, front);
    }
  }

  /** One top-level block, by its tag. */
  function BlockOf(env: Env, st: RenderState, b: Node): Result<Rendered>
    requires b.Element?
  {
    if b.tag == "text:list" then ListOf(env, st, b, 0)
    else if b.tag == "text:section" then TextOf(env, st, b)
    else if b.tag == "table:table" then TableOf(env, st, b)
    else ParagraphOf(env, st, b, 0)
  }

  /** The buffer entries of `toString` and the state after producing them. */
  datatype Parts = Parts(parts: seq<string>, st: RenderState)

  /** The blocks from the `k`th on; a block that renders empty is skipped. */
  function BlocksFrom(env: Env, st: RenderState, blocks: seq<Node>, k: nat): Result<Parts>
    requires AllElements(blocks) && k <= |blocks|
    decreases |blocks| - k
  {
    if k == |blocks| then Ok(Parts([], st))
    else
      match BlockOf(env, st, blocks[k])
      case Err(c) => Err(c)
      case Ok(o) =>
        match BlocksFrom(env, o.st, blocks, k + 1)
        case Err(c) => Err(c)
        case Ok(rest) => Ok(Parts((if o.text == "" then [] else [o.text]) + rest.parts, rest.st))
  }

  /** The footnote entry `"cite: body"`. */
  function FootnoteLine(f: Footnote): string {
    f.cite + ": " + f.body
  }

  /** One entry per footnote, in order. */
  function FootnoteEntries(fs: seq<Footnote>): (lines: seq<string>)
    ensures |lines| == |fs|
    ensures forall i :: 0 <= i < |fs| ==> lines[i] == FootnoteLine(fs[i])
  {
    if fs == [] then [] else FootnoteEntries(fs[..|fs| - 1]) + [FootnoteLine(fs[|fs| - 1])]
  }

  /** The footnote section: a `"----"` rule and one entry per footnote, and
      nothing at all when there are none. */
  function FootnoteLines(fs: seq<Footnote>): (lines: seq<string>)
    ensures fs == [] <==> lines == []
    ensures fs != [] ==> |lines| == |fs| + 1 && lines[0] == "----"
    ensures fs != [] ==> forall i :: 0 <= i < |fs| ==> lines[i + 1] == FootnoteLine(fs[i])
  {
    if fs == [] then [] else ["----"] + FootnoteEntries(fs)
  }

  /** `toString()` of the document whose root element is `root`: the first
      child of the first `office:body` holds the blocks (IndexError when
      either is missing); the non-empty blocks, the footnote section and a
      final empty entry are joined by blank lines and compressed. */
  function DocumentOf(env: Env, st: RenderState, root: Node): Result<Rendered> {
    var bodies := DocumentElementsByTag(root, "office:body");
    if bodies == [] || Children(bodies[0]) == [] then Err(IndexError)
    else
      var kids := Children(Children(bodies[0])[0]);
      if !AllElements(kids) then Err(AttributeError)
      else
        match BlocksFrom(env, st, Blocks(kids), 0)
        case Err(c) => Err(c)
        case Ok(b) => Ok(Rendered(Compress(JoinWith(b.parts + FootnoteLines(b.st.footnotes) + [""], "\n\n")), b.st))
  }
}
