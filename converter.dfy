/** `OpenDocumentTextFile`, the converter object.  `load` fills the list of
    fixed-pitch fonts and the three style maps; the renderers then append to
    `footnotes` and set `hasTitle` as they walk the content tree.  Every
    method is proved against the function that specifies it in `Styles`,
    `CodeBlocks` or `Render`. */
module Converter {
  import opened Results
  import opened Strings
  import opened Dom
  import opened Styles
  import opened CodeBlocks
  import opened Render

  /** A rendering method's result `r` is the one `spec` describes, and the
      object's changing fields `now` are the ones `spec` ends in; after an
      exception only the exception is described. */
  predicate Agrees(r: Result<string>, spec: Result<Rendered>, now: RenderState) {
    match spec
    case Err(c) => r == Err(c)
    case Ok(o) => r == Ok(o.text) && now == o.st
  }

  /** `''.join(buffer + [x])`. */
  lemma ConcatSnoc(buffer: seq<string>, x: string)
    ensures Concat(buffer + [x]) == Concat(buffer) + x
  {
    assert (buffer + [x])[..|buffer|] == buffer;
  }

  /** `''.join(buffer + [a, b])`. */
  lemma ConcatPair(buffer: seq<string>, a: string, b: string)
    ensures Concat(buffer + [a, b]) == Concat(buffer) + (a + b)
  {
    ConcatSnoc(buffer, a);
    ConcatSnoc(buffer + [a], b);
    assert buffer + [a, b] == (buffer + [a]) + [b];
  }

  /** The footnote entries of one more footnote. */
  lemma FootnoteEntriesSnoc(fs: seq<Footnote>, j: int)
    requires 0 <= j < |fs|
    ensures FootnoteEntries(fs[..j + 1]) == FootnoteEntries(fs[..j]) + [FootnoteLine(fs[j])]
  {
    assert fs[..j + 1][..j] == fs[..j];
  }

  /** Prefixing nothing changes nothing. */
  lemma PrependNothing(r: Result<Rendered>)
    ensures Prepend("", r) == r
  {
    if r.Ok? {
      assert "" + r.value.text == r.value.text;
    }
  }

  /** A rendering that has reached the end of its fold is the buffer joined. */
  lemma Finished(buffer: seq<string>, st: RenderState)
    ensures Prepend(Concat(buffer), Ok(Rendered("", st))) == Ok(Rendered(Concat(buffer), st))
  {
    assert Concat(buffer) + "" == Concat(buffer);
  }

  lemma PrependTwice(a: string, b: string, r: Result<Rendered>)
    ensures Prepend(a, Prepend(b, r)) == Prepend(a + b, r)
  {
    if r.Ok? {
      assert a + (b + r.value.text) == (a + b) + r.value.text;
    }
  }

  /** Prefix the entries `ps` to a successful block list. */
  function PrependParts(ps: seq<string>, r: Result<Parts>): Result<Parts> {
    match r
    case Err(c) => Err(c)
    case Ok(p) => Ok(Parts(ps + p.parts, p.st))
  }

  lemma PrependPartsNothing(r: Result<Parts>)
    ensures PrependParts([], r) == r
  {
    if r.Ok? {
      assert [] + r.value.parts == r.value.parts;
    }
  }

  lemma PrependPartsTwice(a: seq<string>, b: seq<string>, r: Result<Parts>)
    ensures PrependParts(a, PrependParts(b, r)) == PrependParts(a + b, r)
  {
    if r.Ok? {
      assert a + (b + r.value.parts) == (a + b) + r.value.parts;
    }
  }

  /** One step of the inner loop of `listToString`: the sub-item at `j`
      decides whether the item fails or goes on with the state it leaves. */
  lemma SubItemsStep(env: Env, st: RenderState, item: Node, indent: int, j: nat, prefix: string)
    requires AllElements(Children(item)) && j < |SubItems(Children(item))|
    ensures Prepend(prefix, SubItemsFrom(env, st, item, indent, j))
      == match SubItemOf(env, st, SubItems(Children(item))[j], indent)
         case Err(c) => Err(c)
         case Ok(o) => Prepend(prefix + o.text, SubItemsFrom(env, o.st, item, indent, j + 1))
  {
    var head := SubItemOf(env, st, SubItems(Children(item))[j], indent);
    if head.Ok? {
      PrependTwice(prefix, head.value.text, SubItemsFrom(env, head.value.st, item, indent, j + 1));
    }
  }

  /** One step of the loop of `tableToString` over an element child. */
  lemma TableStep(env: Env, st: RenderState, t: Node, i: nat, prefix: string)
    requires i < |Children(t)| && Children(t)[i].Element?
    ensures Prepend(prefix, TableItemsFrom(env, st, t, i))
      == match TableItemOf(env, st, Children(t)[i])
         case Err(c) => Err(c)
         case Ok(o) => Prepend(prefix + o.text, TableItemsFrom(env, o.st, t, i + 1))
  {
    var head := TableItemOf(env, st, Children(t)[i]);
    if head.Ok? {
      PrependTwice(prefix, head.value.text, TableItemsFrom(env, head.value.st, t, i + 1));
    }
  }


  /** One step of the loop of `listToString`. */
  lemma ItemsStep(env: Env, st: RenderState, l: Node, ordered: bool, indent: int, i: nat, prefix: string)
    requires i < |Children(l)|
    ensures Prepend(prefix, ItemsFrom(env, st, l, ordered, indent, i))
      == match ItemOf(env, st, Children(l)[i], ordered, indent)
         case Err(c) => Err(c)
         case Ok(o) => Prepend(prefix + o.text, ItemsFrom(env, o.st, l, ordered, indent, i + 1))
  {
    var head := ItemOf(env, st, Children(l)[i], ordered, indent);
    if head.Ok? {
      PrependTwice(prefix, head.value.text, ItemsFrom(env, head.value.st, l, ordered, indent, i + 1));
    }
  }

  /** One step of the loop of `textToString`. */
  lemma ChildrenStep(env: Env, st: RenderState, e: Node, i: nat, prefix: string)
    requires i < |Children(e)|
    ensures Prepend(prefix, ChildrenFrom(env, st, e, i))
      == match NodeText(env, st, Children(e)[i])
         case Err(c) => Err(c)
         case Ok(o) => Prepend(prefix + o.text, ChildrenFrom(env, o.st, e, i + 1))
  {
    var head := NodeText(env, st, Children(e)[i]);
    if head.Ok? {
      PrependTwice(prefix, head.value.text, ChildrenFrom(env, head.value.st, e, i + 1));
    }
  }

  /** One step of the loop over the cells of a row. */
  lemma CellsAdvance(env: Env, st: RenderState, row: Node, i: nat, prefix: string, r: Result<string>, now: RenderState)
    requires i < |Children(row)|
    requires Agrees(r, ParagraphOf(env, st, Children(row)[i], 0), now)
    ensures r.Err? ==> Prepend(prefix, CellsFrom(env, st, row, i)) == Err(r.crash)
    ensures r.Ok? ==>
      Prepend(prefix, CellsFrom(env, st, row, i)) == Prepend(prefix + (r.value + "||"), CellsFrom(env, now, row, i + 1))
  {
    if r.Ok? {
      PrependTwice(prefix, r.value + "||", CellsFrom(env, now, row, i + 1));
    }
  }

  /** Once a prefix of the list styles fails, the whole pass fails the same way. */
  lemma {:induction false} ListStylesFailure(lists: map<string, ListProperties>, styles: seq<Node>, k: int)
    requires AllElements(styles) && 0 <= k <= |styles|
    requires RegisterListStyles(lists, styles[..k]).Err?
    ensures RegisterListStyles(lists, styles) == RegisterListStyles(lists, styles[..k])
    decreases |styles| - k
  {
    if k < |styles| {
      assert styles[..k + 1][..k] == styles[..k];
      ListStylesFailure(lists, styles, k + 1);
    } else {
      assert styles[..k] == styles;
    }
  }

  class OpenDocumentTextFile {
    var footnotes: seq<Footnote>
    var textStyles: map<string, TextProps>
    var paragraphStyles: map<string, ParagraphProps>
    var listStyles: map<string, ListProperties>
    var fixedFonts: seq<string>
    var hasTitle: bool
    /** The parsed `content.xml`; it is a placeholder until `Load`. */
    var content: Node
    const baseURL: string
    /** `IGNORED_TAGS` and `INLINE_TAGS`, built from lists the model takes as
        parameters. */
    const ignoredTags: seq<string>
    const inlineTags: seq<string>

    /** What the renderers read. */
    function Environment(): Env
      reads this`textStyles, this`paragraphStyles, this`listStyles
    {
      Env(textStyles, paragraphStyles, listStyles, baseURL, ignoredTags, inlineTags)
    }

    /** What the renderers change. */
    function State(): RenderState
      reads this`footnotes, this`hasTitle
    {
      RenderState(footnotes, hasTitle)
    }

    /** What `load` fills. */
    function Loaded(): Registers
      reads this`fixedFonts, this`textStyles, this`paragraphStyles, this`listStyles
    {
      Registers(fixedFonts, Registry(textStyles, paragraphStyles), listStyles)
    }

    /** The field set-up of `__init__`, before it calls `load`.
        `emptyElements` and `inlineElements` are the qualified names that
        `IGNORED_TAGS` (after its literal entries) and `INLINE_TAGS` list. */
    constructor (emptyElements: seq<string>, inlineElements: seq<string>)
      ensures State() == RenderState([], false)
      ensures Loaded() == InitialRegisters
      ensures baseURL == "BaseURL"
      ensures ignoredTags == IgnoredLiterals + emptyElements && inlineTags == inlineElements
    {
      footnotes := [];
      textStyles := map["Standard" := DefaultTextProps];
      paragraphStyles := map["Standard" := DefaultParagraphProps];
      listStyles := map[];
      fixedFonts := [];
      hasTitle := false;
      baseURL := "BaseURL";
      ignoredTags := IgnoredLiterals + emptyElements;
      inlineTags := inlineElements;
      content := Text("");
    }

    // ------------------------------------------------------------ loading

    /** `processFontDeclarations(fontDecl)`. */
    method ProcessFontDeclarations(fontDecl: Node)
      modifies this`fixedFonts
      ensures fixedFonts == old(fixedFonts) + FixedFontNames(ElementsByTag(fontDecl, "style:font-face"))
    {
      var faces := ElementsByTag(fontDecl, "style:font-face");
      var i := 0;
      while i < |faces|
        invariant 0 <= i <= |faces|
        invariant fixedFonts == old(fixedFonts) + FixedFontNames(faces[..i])
      {
        var fontFace := faces[i];
        assert faces[..i + 1][..i] == faces[..i];
        if Attr(fontFace, "style:font-pitch") == "fixed" {
          fixedFonts := fixedFonts + [Attr(fontFace, "style:name")];
        }
        i := i + 1;
      }
      assert faces[..i] == faces;
    }

    /** `processStyles(styleElements)`. */
    method ProcessStyles(styleElements: seq<Node>)
      requires AllElements(styleElements)
      modifies this`textStyles, this`paragraphStyles
      ensures Registry(textStyles, paragraphStyles)
        == RegisterStyles(fixedFonts, Registry(old(textStyles), old(paragraphStyles)), styleElements)
    {
      ghost var reg0 := Registry(textStyles, paragraphStyles);
      var i := 0;
      while i < |styleElements|
        invariant 0 <= i <= |styleElements|
        invariant Registry(textStyles, paragraphStyles) == RegisterStyles(fixedFonts, reg0, styleElements[..i])
      {
        var style := styleElements[i];
        ghost var before := Registry(textStyles, paragraphStyles);
        RegisterStylesSnoc(fixedFonts, reg0, styleElements, i);
        var name := Attr(style, "style:name");
        if name != "Standard" {
          var family := Attr(style, "style:family");
          var parent := Attr(style, "style:parent-style-name");
          if family == "text" {
            textStyles := textStyles[name := ExtractTextProperties(fixedFonts, style, parent)];
          } else if family == "paragraph" {
            paragraphStyles := paragraphStyles[name := ExtractParagraphProperties(fixedFonts, style, parent)];
          }
        }
        assert Registry(textStyles, paragraphStyles) == StyleStep(fixedFonts, before, style);
        i := i + 1;
      }
      assert styleElements[..i] == styleElements;
    }

    /** `processListStyles(listStyleElements)`; a style whose first child is
        text fails with AttributeError. */
    method ProcessListStyles(listStyleElements: seq<Node>) returns (r: Result<()>)
      requires AllElements(listStyleElements)
      modifies this`listStyles
      ensures match RegisterListStyles(old(listStyles), listStyleElements)
        case Err(c) => r == Err(c)
        case Ok(m) => r == Ok(()) && listStyles == m
    {
      ghost var lists0 := listStyles;
      var i := 0;
      while i < |listStyleElements|
        invariant 0 <= i <= |listStyleElements|
        invariant RegisterListStyles(lists0, listStyleElements[..i]) == Ok(listStyles)
      {
        var style := listStyleElements[i];
        assert listStyleElements[..i + 1][..i] == listStyleElements[..i];
        var name := Attr(style, "style:name");
        var prop := DefaultListProperties;
        var kids := Children(style);
        if kids != [] {
          if kids[0].Text? {
            ListStylesFailure(lists0, listStyleElements, i + 1);
            return Err(AttributeError);
          }
          if kids[0].tag == NumberLevel {
            prop := ListProperties(true);
          }
        }
        listStyles := listStyles[name := prop];
        i := i + 1;
      }
      assert listStyleElements[..i] == listStyleElements;
      r := Ok(());
    }

    /** The three passes `load` makes over one parsed document. */
    method ProcessDocument(doc: Node) returns (r: Result<()>)
      modifies this`fixedFonts, this`textStyles, this`paragraphStyles, this`listStyles
      ensures match LoadDocument(old(Loaded()), doc)
        case Err(c) => r == Err(c)
        case Ok(regs) => r == Ok(()) && Loaded() == regs
    {
      var decls := DocumentElementsByTag(doc, "office:font-face-decls");
      if decls == [] {
        return Err(IndexError);
      }
      ProcessFontDeclarations(decls[0]);
      ProcessStyles(DocumentElementsByTag(doc, "style:style"));
      r := ProcessListStyles(DocumentElementsByTag(doc, "text:list-style"));
    }

    /** `load`: the styles document first, then the content document, which
        is also kept for `ToString`. */
    method Load(stylesDoc: Node, contentDoc: Node) returns (r: Result<()>)
      modifies this`fixedFonts, this`textStyles, this`paragraphStyles, this`listStyles, this`content
      ensures match Styles.Load(old(Loaded()), stylesDoc, contentDoc)
        case Err(c) => r == Err(c)
        case Ok(regs) => r == Ok(()) && Loaded() == regs && content == contentDoc
    {
      r := ProcessDocument(stylesDoc);
      if r.Err? {
        return;
      }
      content := contentDoc;
      r := ProcessDocument(contentDoc);
    }

    // ------------------------------------------------------------ compressCodeBlocks

    /** `compressCodeBlocks(text)`.  The neighbour `lines[i + 1]` is read only
        when `i` is not the last index, so it is always in range. */
    method CompressCodeBlocks(text: string) returns (r: string)
      ensures r == Compress(text)
    {
      var lines := Split(text, '\n');
      var buffer: seq<string> := [];
      var numLines := |lines|;
      for i := 0 to numLines
        invariant buffer == Newlined(KeptLines(lines, i))
      {
        if (Strip(lines[i]) != "" || i == numLines - 1 || i == 0 ||
            !(StartsWith(lines[i - 1], "    ") && StartsWith(lines[i + 1], "    "))) {
          buffer := buffer + ["\n" + lines[i]];
        }
      }
      r := Concat(buffer);
    }

    // ------------------------------------------------------------ textToString

    /** `textToString(element)`. */
    method TextToString(element: Node) returns (r: Result<string>)
      modifies this`footnotes, this`hasTitle
      ensures Agrees(r, TextOf(Environment(), old(State()), element), State())
      decreases Size(element), 1
    {
      var kids := Children(element);
      var buffer: seq<string> := [];
      PrependNothing(ChildrenFrom(Environment(), State(), element, 0));
      var i := 0;
      while i < |kids|
        invariant 0 <= i <= |kids|
        invariant TextOf(Environment(), old(State()), element)
          == Prepend(Concat(buffer), ChildrenFrom(Environment(), State(), element, i))
      {
        ChildSmaller(element, i);
        ChildrenStep(Environment(), State(), element, i, Concat(buffer));
        var piece := NodeToString(kids[i]);
        if piece.Err? {
          return Err(piece.crash);
        }
        ConcatSnoc(buffer, piece.value);
        buffer := buffer + [piece.value];
        i := i + 1;
      }
      Finished(buffer, State());
      r := Ok(Concat(buffer));
    }

    /** One iteration of `textToString`'s loop: the branch for `node`. */
    method NodeToString(node: Node) returns (r: Result<string>)
      modifies this`footnotes, this`hasTitle
      ensures Agrees(r, NodeText(Environment(), old(State()), node), State())
      decreases Size(node), 3
    {
      match node
      case Text(value) =>
        r := Ok(value);
      case Element(tag, _, _) =>
        if tag == "text:note" {
          var cites := ElementsByTag(node, "text:note-citation");
          if cites == [] || Children(cites[0]) == [] {
            return Err(IndexError);
          }
          var cite := NodeValue(Children(cites[0])[0]);
          var bodies := ElementsByTag(node, "text:note-body");
          if bodies == [] || Children(bodies[0]) == [] {
            return Err(IndexError);
          }
          var body := Children(bodies[0])[0];
          ElementsByTagSmaller(node, "text:note-body", 0);
          ChildSmaller(bodies[0], 0);
          var text := TextToString(body);
          if text.Err? {
            return Err(text.crash);
          }
          footnotes := footnotes + [Footnote(cite, text.value)];
          r := Ok("^" + cite + "^");
        } else if tag == "text:s" {
          r := Ok(SpaceRun(Attr(node, "text:c")));
        } else if tag == "text:tab" {
          r := Ok("    ");
        } else if tag == "text:a" {
          var text := TextToString(node);
          if text.Err? {
            return Err(text.crash);
          }
          r := Ok(LinkText(Attr(node, "xlink:href"), text.value));
        } else if tag == "draw:image" {
          r := Ok(ImageText(baseURL, Attr(node, "xlink:href")));
        } else if tag == "text:line-break" {
          r := Ok("\n");
        } else if tag == "draw:text-box" || tag == "draw:frame" {
          r := TextToString(node);
        } else if tag == "text:p" || tag == "text:h" {
          var text := ParagraphToString(node, 0);
          if text.Err? {
            return Err(text.crash);
          }
          r := Ok(if text.value == "" then "" else text.value + "\n\n");
        } else if tag in ignoredTags {
          r := Ok("");
        } else if tag in inlineTags {
          var text := TextToString(node);
          if text.Err? {
            return Err(text.crash);
          }
          var styleName := Attr(node, "text:style-name");
          var style := if styleName in textStyles then textStyles[styleName] else DefaultTextProps;
          r := Ok(InlineRun(style, text.value));
        } else {
          r := Ok(" {" + tag + "} ");
        }
    }

    // ------------------------------------------------------------ paragraphToString

    /** `paragraphToString(paragraph, indent)`. */
    method ParagraphToString(paragraph: Node, indent: int) returns (r: Result<string>)
      modifies this`footnotes, this`hasTitle
      ensures Agrees(r, ParagraphOf(Environment(), old(State()), paragraph, indent), State())
      decreases Size(paragraph), 2
    {
      if paragraph.Text? {
        return Err(AttributeError);
      }
      var styleName := Attr(paragraph, "text:style-name");
      var paraProps := if styleName in paragraphStyles then paragraphStyles[styleName] else DefaultParagraphProps;
      var inner := TextToString(paragraph);
      if inner.Err? {
        return Err(inner.crash);
      }
      var text := inner.value;
      if !paraProps.code {
        text := Strip(text);
      }
      if paraProps.title {
        hasTitle := true;
        return Ok("= " + text + " =\n");
      }
      var outlineLevel := Attr(paragraph, "text:outline-level");
      if outlineLevel != "" {
        var parsed := ParseInt(outlineLevel);
        if parsed.None? {
          return Err(ValueError);
        }
        var level := parsed.value;
        if hasTitle {
          level := level + 1;
        }
        if level >= 1 {
          return Ok("\n" + Repeat('=', level) + " " + text + " " + Repeat('=', level) + "\n");
        }
      } else if paraProps.code {
        return Ok("{{{\n" + text + "\n}}}\n");
      }
      r := Ok(WrapParagraph(text, indent, paraProps.indented));
    }

    // ------------------------------------------------------------ listToString

    /** `listToString(listElement, indent)`. */
    method ListToString(listElement: Node, indent: int) returns (r: Result<string>)
      modifies this`footnotes, this`hasTitle
      ensures Agrees(r, ListOf(Environment(), old(State()), listElement, indent), State())
      decreases Size(listElement), 2
    {
      if listElement.Text? {
        return Err(AttributeError);
      }
      var styleName := Attr(listElement, "text:style-name");
      var props := if styleName in listStyles then listStyles[styleName] else DefaultListProperties;
      var kids := Children(listElement);
      var buffer: seq<string> := [];
      PrependNothing(ItemsFrom(Environment(), State(), listElement, props.ordered, indent, 0));
      var i := 0;
      while i < |kids|
        invariant 0 <= i <= |kids|
        invariant ListOf(Environment(), old(State()), listElement, indent)
          == Prepend(Concat(buffer), ItemsFrom(Environment(), State(), listElement, props.ordered, indent, i))
      {
        ChildSmaller(listElement, i);
        ItemsStep(Environment(), State(), listElement, props.ordered, indent, i, Concat(buffer));
        var item := ItemToString(kids[i], props.ordered, indent);
        if item.Err? {
          return Err(item.crash);
        }
        ConcatSnoc(buffer, item.value);
        buffer := buffer + [item.value];
        i := i + 1;
      }
      Finished(buffer, State());
      r := Ok(Concat(buffer));
    }

    /** One iteration of `listToString`'s loop: the indentation, the
        bullet, the item's paragraphs and nested lists, and a newline. */
    method ItemToString(item: Node, ordered: bool, indent: int) returns (r: Result<string>)
      modifies this`footnotes, this`hasTitle
      ensures Agrees(r, ItemOf(Environment(), old(State()), item, ordered, indent), State())
      decreases Size(item), 3
    {
      var buffer: seq<string> := [Repeat(' ', indent)];
      if ordered {
        buffer := buffer + [" 1. "];
      } else {
        buffer := buffer + [" * "];
      }
      var kids := Children(item);
      if !AllElements(kids) {
        return Err(AttributeError);
      }
      assert Concat(buffer) == Repeat(' ', indent) + Marker(ordered) by {
        assert buffer[..1] == [Repeat(' ', indent)];
        assert Concat(buffer[..1]) == "" + Repeat(' ', indent) == Repeat(' ', indent);
      }
      var text := SubItemsToString(item, indent + 3);
      if text.Err? {
        return Err(text.crash);
      }
      ConcatPair(buffer, text.value, "\n");
      buffer := buffer + [text.value, "\n"];
      r := Ok(Concat(buffer));
    }

    /** The inner loop of `listToString` over the paragraphs and nested lists
        of one item. */
    method SubItemsToString(item: Node, indent: int) returns (r: Result<string>)
      requires AllElements(Children(item))
      modifies this`footnotes, this`hasTitle
      ensures Agrees(r, SubItemsFrom(Environment(), old(State()), item, indent, 0), State())
      decreases Size(item), 2
    {
      var subitems := SubItems(Children(item));
      var buffer: seq<string> := [];
      PrependNothing(SubItemsFrom(Environment(), State(), item, indent, 0));
      var j := 0;
      while j < |subitems|
        invariant 0 <= j <= |subitems|
        invariant SubItemsFrom(Environment(), old(State()), item, indent, 0)
          == Prepend(Concat(buffer), SubItemsFrom(Environment(), State(), item, indent, j))
      {
        var subitem := subitems[j];
        assert subitem in subitems;
        MemberOfChildrenSmaller(item, subitem);
        SubItemsStep(Environment(), State(), item, indent, j, Concat(buffer));
        var text := SubItemToString(subitem, indent);
        if text.Err? {
          return Err(text.crash);
        }
        ConcatSnoc(buffer, text.value);
        buffer := buffer + [text.value];
        j := j + 1;
      }
      Finished(buffer, State());
      r := Ok(Concat(buffer));
    }

    /** The body of the inner loop of `listToString`: a nested list after a
        newline, or a paragraph. */
    method SubItemToString(subitem: Node, indent: int) returns (r: Result<string>)
      requires subitem.Element?
      modifies this`footnotes, this`hasTitle
      ensures Agrees(r, SubItemOf(Environment(), old(State()), subitem, indent), State())
      decreases Size(subitem), 3
    {
      if subitem.tag == "text:list" {
        var text := ListToString(subitem, indent);
        if text.Err? {
          return Err(text.crash);
        }
        r := Ok("\n" + text.value);
      } else {
        r := ParagraphToString(subitem, indent);
      }
    }

    // ------------------------------------------------------------ tableToString

    /** `tableToString(tableElement)`. */
    method TableToString(tableElement: Node) returns (r: Result<string>)
      modifies this`footnotes, this`hasTitle
      ensures Agrees(r, TableOf(Environment(), old(State()), tableElement), State())
      decreases Size(tableElement), 2
    {
      var kids := Children(tableElement);
      var buffer: seq<string> := [];
      PrependNothing(TableItemsFrom(Environment(), State(), tableElement, 0));
      var i := 0;
      while i < |kids|
        invariant 0 <= i <= |kids|
        invariant TableOf(Environment(), old(State()), tableElement)
          == Prepend(Concat(buffer), TableItemsFrom(Environment(), State(), tableElement, i))
      {
        var item := kids[i];
        ChildSmaller(tableElement, i);
        if item.Text? {
          return Err(AttributeError);
        }
        TableStep(Environment(), State(), tableElement, i, Concat(buffer));
        var piece := TableItemToString(item);
        if piece.Err? {
          return Err(piece.crash);
        }
        ConcatSnoc(buffer, piece.value);
        buffer := buffer + [piece.value];
        i := i + 1;
      }
      Finished(buffer, State());
      r := Ok(Concat(buffer));
    }

    /** The body of `tableToString`'s loop for one element child. */
    method TableItemToString(item: Node) returns (r: Result<string>)
      requires item.Element?
      modifies this`footnotes, this`hasTitle
      ensures Agrees(r, TableItemOf(Environment(), old(State()), item), State())
      decreases Size(item), 3
    {
      if item.tag == "table:table-header-rows" {
        r := TableToString(item);
      } else if item.tag == "table:table-row" {
        var cells := RowToString(item);
        if cells.Err? {
          return Err(cells.crash);
        }
        r := Ok("\n||" + cells.value);
      } else {
        r := Ok("");
      }
    }

    /** The inner loop of `tableToString` over the cells of one row. */
    method RowToString(row: Node) returns (r: Result<string>)
      modifies this`footnotes, this`hasTitle
      ensures Agrees(r, CellsFrom(Environment(), old(State()), row, 0), State())
    {
      var cells := Children(row);
      var buffer: seq<string> := [];
      PrependNothing(CellsFrom(Environment(), State(), row, 0));
      var i := 0;
      while i < |cells|
        invariant 0 <= i <= |cells|
        invariant CellsFrom(Environment(), old(State()), row, 0)
          == Prepend(Concat(buffer), CellsFrom(Environment(), State(), row, i))
      {
        ghost var before := State();
        var text := ParagraphToString(cells[i], 0);
        CellsAdvance(Environment(), before, row, i, Concat(buffer), text, State());
        if text.Err? {
          return Err(text.crash);
        }
        ConcatPair(buffer, text.value, "||");
        buffer := buffer + [text.value, "||"];
        i := i + 1;
      }
      Finished(buffer, State());
      r := Ok(Concat(buffer));
    }

    // ------------------------------------------------------------ toString

    /** The branch of `toString`'s loop for one block. */
    method BlockToString(paragraph: Node) returns (r: Result<string>)
      requires paragraph.Element?
      modifies this`footnotes, this`hasTitle
      ensures Agrees(r, BlockOf(Environment(), old(State()), paragraph), State())
    {
      if paragraph.tag == "text:list" {
        r := ListToString(paragraph, 0);
      } else if paragraph.tag == "text:section" {
        r := TextToString(paragraph);
      } else if paragraph.tag == "table:table" {
        r := TableToString(paragraph);
      } else {
        r := ParagraphToString(paragraph, 0);
      }
    }

    /** The footnote part of `toString`: the rule and one entry per footnote,
        only when there are footnotes. */
    method AppendFootnotes(parts: seq<string>) returns (buffer: seq<string>)
      ensures buffer == parts + FootnoteLines(footnotes)
    {
      buffer := parts;
      if footnotes != [] {
        buffer := buffer + ["----"];
        ghost var head := buffer;
        var j := 0;
        while j < |footnotes|
          invariant 0 <= j <= |footnotes|
          invariant buffer == head + FootnoteEntries(footnotes[..j])
        {
          FootnoteEntriesSnoc(footnotes, j);
          ghost var entries := FootnoteEntries(footnotes[..j]);
          var line := footnotes[j].cite + ": " + footnotes[j].body;
          assert (head + entries) + [line] == head + (entries + [line]);
          buffer := buffer + [line];
          j := j + 1;
        }
        assert footnotes[..j] == footnotes;
        assert head + FootnoteEntries(footnotes) == parts + (["----"] + FootnoteEntries(footnotes));
      } else {
        assert parts + [] == parts;
      }
    }

    /** `toString()`. */
    method ToString() returns (r: Result<string>)
      modifies this`footnotes, this`hasTitle
      ensures Agrees(r, DocumentOf(Environment(), old(State()), content), State())
    {
      var bodies := DocumentElementsByTag(content, "office:body");
      if bodies == [] || Children(bodies[0]) == [] {
        return Err(IndexError);
      }
      var text := Children(bodies[0])[0];
      var kids := Children(text);
      if !AllElements(kids) {
        return Err(AttributeError);
      }
      var paragraphs := Blocks(kids);
      var buffer: seq<string> := [];
      PrependPartsNothing(BlocksFrom(Environment(), State(), paragraphs, 0));
      var i := 0;
      while i < |paragraphs|
        invariant 0 <= i <= |paragraphs|
        invariant BlocksFrom(Environment(), old(State()), paragraphs, 0)
          == PrependParts(buffer, BlocksFrom(Environment(), State(), paragraphs, i))
      {
        var piece := BlockToString(paragraphs[i]);
        if piece.Err? {
          return Err(piece.crash);
        }
        var entry := if piece.value == "" then [] else [piece.value];
        PrependPartsTwice(buffer, entry, BlocksFrom(Environment(), State(), paragraphs, i + 1));
        buffer := buffer + entry;
        i := i + 1;
      }
      assert buffer + [] == buffer;
      buffer := AppendFootnotes(buffer);
      buffer := buffer + [""];
      var compressed := CompressCodeBlocks(JoinWith(buffer, "\n\n"));
      r := Ok(compressed);
    }
  }

  /** `OpenDocumentTextFile(filepath)` for a file whose `styles.xml` and
      `content.xml` parse to `stylesDoc` and `contentDoc`: the fields are
      set up and `load` runs; an exception of `load` means no object. */
  method Open(emptyElements: seq<string>, inlineElements: seq<string>, stylesDoc: Node, contentDoc: Node)
    returns (r: Result<OpenDocumentTextFile>)
    ensures match Styles.Load(InitialRegisters, stylesDoc, contentDoc)
      case Err(c) => r == Err(c)
      case Ok(regs) =>
        && r.Ok? && fresh(r.value)
        && r.value.Loaded() == regs && r.value.content == contentDoc
        && r.value.State() == RenderState([], false)
        && r.value.ignoredTags == IgnoredLiterals + emptyElements && r.value.inlineTags == inlineElements
  {
    var odt := new OpenDocumentTextFile(emptyElements, inlineElements);
    var loaded := odt.Load(stylesDoc, contentDoc);
    if loaded.Err? {
      return Err(loaded.crash);
    }
    r := Ok(odt);
  }
}
