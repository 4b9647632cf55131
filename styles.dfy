/** The style registry and the rules that fill it: what the converter keeps of
    each font face, text style, paragraph style and list style it reads from
    `office:font-face-decls`, `style:style` and `text:list-style` elements. */
module Styles {
  import opened Results
  import opened Strings
  import opened Dom

  /** The formatting a text style carries (`TextProps`). */
  datatype TextProps = TextProps(italic: bool, bold: bool, fixed: bool, underlined: bool)

  const DefaultTextProps := TextProps(false, false, false, false)

  /** The formatting a paragraph style carries (`ParagraphProps`). */
  datatype ParagraphProps =
    ParagraphProps(blockquote: bool, headingLevel: int, code: bool, title: bool, indented: bool)

  const DefaultParagraphProps := ParagraphProps(false, 0, false, false, false)

  /** The formatting a list style carries (`ListProperties`). */
  datatype ListProperties = ListProperties(ordered: bool)

  const DefaultListProperties := ListProperties(false)

  /** The text-style and paragraph-style maps, filled together by one pass. */
  datatype Registry = Registry(textStyles: map<string, TextProps>, paragraphStyles: map<string, ParagraphProps>)

  /** Both maps start with a default `"Standard"` entry. */
  const SeededRegistry := Registry(map["Standard" := DefaultTextProps], map["Standard" := DefaultParagraphProps])

  // ---------------------------------------------------------------- fonts

  /** The `style:name` of every `style:font-face` whose pitch is `"fixed"`,
      in document order, as `processFontDeclarations` appends them. */
  function FixedFontNames(faces: seq<Node>): seq<string>
    requires AllElements(faces)
  {
    if faces == [] then []
    else
      var face := faces[|faces| - 1];
      FixedFontNames(faces[..|faces| - 1])
        + (if Attr(face, "style:font-pitch") == "fixed" then [Attr(face, "style:name")] else [])
  }

  /** A name is collected exactly when some face of fixed pitch declares it. */
  lemma {:induction false} FixedFontNamesMembers(faces: seq<Node>, x: string)
    requires AllElements(faces)
    ensures x in FixedFontNames(faces) <==>
      exists i :: 0 <= i < |faces| && Attr(faces[i], "style:font-pitch") == "fixed" && Attr(faces[i], "style:name") == x
  {
    if faces != [] {
      var init := faces[..|faces| - 1];
      FixedFontNamesMembers(init, x);
      assert forall i :: 0 <= i < |init| ==> init[i] == faces[i];
    }
  }

  // ---------------------------------------------------------------- text styles

  /** `extractTextProperties`: italic, bold and fixed come from the style's
      first `style:text-properties` element; a style without one is all off.
      The parent style is looked up by the Python code but its value is discarded,
      so `parent` takes no part in the result. */
  function ExtractTextProperties(fixedFonts: seq<string>, style: Node, parent: string): (p: TextProps)
    requires style.Element?
    ensures var els := ElementsByTag(style, "style:text-properties");
      && (els == [] ==> p == DefaultTextProps)
      && (p.italic <==> els != [] && Attr(els[0], "fo:font-style") == "italic")
      && (p.bold <==> els != [] && Attr(els[0], "fo:font-weight") == "bold")
      && (p.fixed <==> els != [] && Attr(els[0], "style:font-name") in fixedFonts)
      && !p.underlined
  {
    var els := ElementsByTag(style, "style:text-properties");
    if els == [] then DefaultTextProps
    else
      var el := els[0];
      var props := DefaultTextProps;
      var props := if Attr(el, "fo:font-style") == "italic" then props.(italic := true) else props;
      var props := if Attr(el, "fo:font-weight") == "bold" then props.(bold := true) else props;
      if Attr(el, "style:font-name") in fixedFonts then props.(fixed := true) else props
  }

  /** The parent-style name never changes the properties of a text style. */
  lemma ParentIgnored(fixedFonts: seq<string>, style: Node, parent1: string, parent2: string)
    requires style.Element?
    ensures ExtractTextProperties(fixedFonts, style, parent1) == ExtractTextProperties(fixedFonts, style, parent2)
  {
  }

  // ---------------------------------------------------------------- paragraph styles

  const HeadingPrefix := "Heading_20_"

  /** `float(margin[:-2]) > 0.01`, false whenever the conversion fails. */
  predicate MarginIndents(margin: string) {
    var number := if |margin| >= 2 then margin[..|margin| - 2] else "";
    match ParseFloat(number)
    case Some(v) => v > 0.01
    case None => false
  }

  /** `extractParagraphProperties`. */
  function ExtractParagraphProperties(fixedFonts: seq<string>, style: Node, parent: string): (p: ParagraphProps)
    requires style.Element?
    ensures var name := Attr(style, "style:name");
      && (p.title <==> name == "Title")
      && (!StartsWith(name, HeadingPrefix) ==> p.headingLevel == 0)
      && (StartsWith(name, HeadingPrefix) && ParseInt(name[|HeadingPrefix|..]) == None ==> p.headingLevel == 0)
      && (StartsWith(name, HeadingPrefix) && ParseInt(name[|HeadingPrefix|..]).Some? ==>
            p.headingLevel == ParseInt(name[|HeadingPrefix|..]).value)
    ensures var els := ElementsByTag(style, "style:paragraph-properties");
      p.indented <==> els != [] && Attr(els[0], "fo:margin-left") != "" && MarginIndents(Attr(els[0], "fo:margin-left"))
    ensures p.code <==> ExtractTextProperties(fixedFonts, style, "").fixed
    ensures !p.blockquote
  {
    var name := Attr(style, "style:name");
    var props := DefaultParagraphProps;
    var props :=
      if StartsWith(name, HeadingPrefix) then
        match ParseInt(name[11..])
        case Some(level) => props.(headingLevel := level)
        case None => props
      else props;
    var props := if name == "Title" then props.(title := true) else props;
    var els := ElementsByTag(style, "style:paragraph-properties");
    var props :=
      if els != [] && Attr(els[0], "fo:margin-left") != "" && MarginIndents(Attr(els[0], "fo:margin-left"))
      then props.(indented := true) else props;
    if ExtractTextProperties(fixedFonts, style, "").fixed then props.(code := true) else props
  }

  /** A style named `Heading_20_` followed by the decimal `n` is a level-`n`
      heading style. */
  lemma HeadingStyleLevel(fixedFonts: seq<string>, style: Node, n: nat)
    requires style.Element? && Attr(style, "style:name") == HeadingPrefix + Decimal(n)
    ensures ExtractParagraphProperties(fixedFonts, style, "").headingLevel == n
  {
    var name := HeadingPrefix + Decimal(n);
    assert StartsWith(name, HeadingPrefix);
    assert name[11..] == Decimal(n);
    ParseIntOfDecimal(n);
  }

  // ---------------------------------------------------------------- processStyles

  function Name(style: Node): string requires style.Element? { Attr(style, "style:name") }
  function Family(style: Node): string requires style.Element? { Attr(style, "style:family") }
  function Parent(style: Node): string requires style.Element? { Attr(style, "style:parent-style-name") }

  /** One iteration of `processStyles`. */
  function StyleStep(fixedFonts: seq<string>, reg: Registry, style: Node): Registry
    requires style.Element?
  {
    var name := Name(style);
    if name == "Standard" then reg
    else if Family(style) == "text" then
      reg.(textStyles := reg.textStyles[name := ExtractTextProperties(fixedFonts, style, Parent(style))])
    else if Family(style) == "paragraph" then
      reg.(paragraphStyles := reg.paragraphStyles[name := ExtractParagraphProperties(fixedFonts, style, Parent(style))])
    else reg
  }

  /** `processStyles` over `styles`, in order. */
  function RegisterStyles(fixedFonts: seq<string>, reg: Registry, styles: seq<Node>): Registry
    requires AllElements(styles)
  {
    if styles == [] then reg
    else StyleStep(fixedFonts, RegisterStyles(fixedFonts, reg, styles[..|styles| - 1]), styles[|styles| - 1])
  }

  /** One more style is one more step of the pass. */
  lemma RegisterStylesSnoc(fixedFonts: seq<string>, reg: Registry, styles: seq<Node>, i: int)
    requires AllElements(styles) && 0 <= i < |styles|
    ensures AllElements(styles[..i]) && AllElements(styles[..i + 1])
    ensures RegisterStyles(fixedFonts, reg, styles[..i + 1])
      == StyleStep(fixedFonts, RegisterStyles(fixedFonts, reg, styles[..i]), styles[i])
  {
    assert styles[..i + 1][..i] == styles[..i];
  }

  /** `style` is a declaration of family `family` that the registry takes. */
  predicate Declares(style: Node, family: string, name: string)
    requires style.Element?
  {
    Name(style) == name && name != "Standard" && Family(style) == family
  }

  /** The last declaration of `name` in `family`, or -1 when there is none. */
  function LastDeclaration(styles: seq<Node>, family: string, name: string): (j: int)
    requires AllElements(styles)
    ensures -1 <= j < |styles|
    ensures j >= 0 ==> Declares(styles[j], family, name)
    ensures forall k :: j < k < |styles| ==> !Declares(styles[k], family, name)
  {
    if styles == [] then -1
    else if Declares(styles[|styles| - 1], family, name) then |styles| - 1
    else LastDeclaration(styles[..|styles| - 1], family, name)
  }

  /** The text-style entry of `name` after `processStyles`: the last `"text"`
      declaration of that name wins; with none, the entry is unchanged. */
  lemma {:induction false} TextStyleEntry(fixedFonts: seq<string>, reg: Registry, styles: seq<Node>, name: string)
    requires AllElements(styles)
    ensures var r := RegisterStyles(fixedFonts, reg, styles);
      var j := LastDeclaration(styles, "text", name);
      && (name in r.textStyles <==> name in reg.textStyles || j >= 0)
      && (j >= 0 ==> r.textStyles[name] == ExtractTextProperties(fixedFonts, styles[j], Parent(styles[j])))
      && (j < 0 && name in reg.textStyles ==> r.textStyles[name] == reg.textStyles[name])
  {
    if styles != [] {
      var init := styles[..|styles| - 1];
      TextStyleEntry(fixedFonts, reg, init, name);
      if !Declares(styles[|styles| - 1], "text", name) {
        assert LastDeclaration(styles, "text", name) == LastDeclaration(init, "text", name);
        var j := LastDeclaration(init, "text", name);
        if j >= 0 {
          assert styles[j] == init[j];
        }
      }
    }
  }

  /** The paragraph-style entry of `name` after `processStyles`: the last
      `"paragraph"` declaration of that name wins; with none, it is unchanged. */
  lemma {:induction false} ParagraphStyleEntry(fixedFonts: seq<string>, reg: Registry, styles: seq<Node>, name: string)
    requires AllElements(styles)
    ensures var r := RegisterStyles(fixedFonts, reg, styles);
      var j := LastDeclaration(styles, "paragraph", name);
      && (name in r.paragraphStyles <==> name in reg.paragraphStyles || j >= 0)
      && (j >= 0 ==> r.paragraphStyles[name] == ExtractParagraphProperties(fixedFonts, styles[j], Parent(styles[j])))
      && (j < 0 && name in reg.paragraphStyles ==> r.paragraphStyles[name] == reg.paragraphStyles[name])
  {
    if styles != [] {
      var init := styles[..|styles| - 1];
      ParagraphStyleEntry(fixedFonts, reg, init, name);
      if !Declares(styles[|styles| - 1], "paragraph", name) {
        assert LastDeclaration(styles, "paragraph", name) == LastDeclaration(init, "paragraph", name);
        var j := LastDeclaration(init, "paragraph", name);
        if j >= 0 {
          assert styles[j] == init[j];
        }
      }
    }
  }

  /** A declaration named `"Standard"` never replaces the seeded entries. */
  lemma StandardKept(fixedFonts: seq<string>, reg: Registry, styles: seq<Node>)
    requires AllElements(styles)
    requires "Standard" in reg.textStyles && "Standard" in reg.paragraphStyles
    ensures var r := RegisterStyles(fixedFonts, reg, styles);
      && "Standard" in r.textStyles && r.textStyles["Standard"] == reg.textStyles["Standard"]
      && "Standard" in r.paragraphStyles && r.paragraphStyles["Standard"] == reg.paragraphStyles["Standard"]
  {
    TextStyleEntry(fixedFonts, reg, styles, "Standard");
    ParagraphStyleEntry(fixedFonts, reg, styles, "Standard");
  }

  /** Declarations of any family other than `"text"` and `"paragraph"` leave
      both maps as they were. */
  lemma {:induction false} OtherFamiliesIgnored(fixedFonts: seq<string>, reg: Registry, styles: seq<Node>)
    requires AllElements(styles)
    requires forall k :: 0 <= k < |styles| ==> Family(styles[k]) != "text" && Family(styles[k]) != "paragraph"
    ensures RegisterStyles(fixedFonts, reg, styles) == reg
  {
    if styles != [] {
      OtherFamiliesIgnored(fixedFonts, reg, styles[..|styles| - 1]);
    }
  }

  // ---------------------------------------------------------------- list styles

  const NumberLevel := "text:list-level-style-number"

  /** One list style: ordered exactly when its first child is a numbered level
      definition; a first child that is text has no `tagName` to read. */
  function ListStyleOf(style: Node): (r: Result<ListProperties>)
    requires style.Element?
    ensures r.Err? <==> Children(style) != [] && Children(style)[0].Text?
    ensures r.Ok? ==> (r.value.ordered <==> Children(style) != [] && Children(style)[0].tag == NumberLevel)
  {
    var kids := Children(style);
    if kids == [] then Ok(DefaultListProperties)
    else if kids[0].Text? then Err(AttributeError)
    else Ok(ListProperties(kids[0].tag == NumberLevel))
  }

  /** `processListStyles` over `styles`, in order; every name is taken,
      `"Standard"` included. */
  function RegisterListStyles(lists: map<string, ListProperties>, styles: seq<Node>): Result<map<string, ListProperties>>
    requires AllElements(styles)
  {
    if styles == [] then Ok(lists)
    else
      match RegisterListStyles(lists, styles[..|styles| - 1])
      case Err(c) => Err(c)
      case Ok(m) =>
        match ListStyleOf(styles[|styles| - 1])
        case Err(c) => Err(c)
        case Ok(p) => Ok(m[Name(styles[|styles| - 1]) := p])
  }

  /** The last list style named `name`, or -1. */
  function LastListStyle(styles: seq<Node>, name: string): (j: int)
    requires AllElements(styles)
    ensures -1 <= j < |styles|
    ensures j >= 0 ==> Name(styles[j]) == name
    ensures forall k :: j < k < |styles| ==> Name(styles[k]) != name
  {
    if styles == [] then -1
    else if Name(styles[|styles| - 1]) == name then |styles| - 1
    else LastListStyle(styles[..|styles| - 1], name)
  }

  /** `processListStyles` fails exactly when some list style starts with a
      text node; otherwise the last style of a name decides whether it is
      ordered, and names never declared keep their entry. */
  lemma {:induction false} ListStyleEntry(lists: map<string, ListProperties>, styles: seq<Node>, name: string)
    requires AllElements(styles)
    ensures var r := RegisterListStyles(lists, styles);
      r.Err? <==> exists k :: 0 <= k < |styles| && Children(styles[k]) != [] && Children(styles[k])[0].Text?
    ensures var r := RegisterListStyles(lists, styles);
      var j := LastListStyle(styles, name);
      r.Ok? ==>
        && (name in r.value <==> name in lists || j >= 0)
        && (j >= 0 ==> (r.value[name].ordered <==> Children(styles[j]) != [] && Children(styles[j])[0].tag == NumberLevel))
        && (j < 0 && name in lists ==> r.value[name] == lists[name])
  {
    if styles != [] {
      var init := styles[..|styles| - 1];
      ListStyleEntry(lists, init, name);
      assert forall k :: 0 <= k < |init| ==> init[k] == styles[k];
      if Name(styles[|styles| - 1]) != name {
        var j := LastListStyle(init, name);
        if j >= 0 {
          assert styles[j] == init[j];
        }
      }
    }
  }

  // ---------------------------------------------------------------- load

  /** Everything `load` fills: the fixed-font list and the three maps. */
  datatype Registers = Registers(fixedFonts: seq<string>, styles: Registry, listStyles: map<string, ListProperties>)

  /** The registers before `load`: `"Standard"` in the text and paragraph
      maps, nothing else. */
  const InitialRegisters := Registers([], SeededRegistry, map[])

  /** The part of `load` that reads one document: its first
      `office:font-face-decls` (IndexError when there is none), then every
      `style:style`, then every `text:list-style`. */
  function LoadDocument(regs: Registers, doc: Node): (r: Result<Registers>)
    ensures DocumentElementsByTag(doc, "office:font-face-decls") == [] ==> r == Err(IndexError)
  {
    var decls := DocumentElementsByTag(doc, "office:font-face-decls");
    if decls == [] then Err(IndexError)
    else
      var fonts := regs.fixedFonts + FixedFontNames(ElementsByTag(decls[0], "style:font-face"));
      var reg := RegisterStyles(fonts, regs.styles, DocumentElementsByTag(doc, "style:style"));
      match RegisterListStyles(regs.listStyles, DocumentElementsByTag(doc, "text:list-style"))
      case Err(c) => Err(c)
      case Ok(lists) => Ok(Registers(fonts, reg, lists))
  }

  /** `load`: the styles document first, then the content document. */
  function Load(regs: Registers, stylesDoc: Node, contentDoc: Node): Result<Registers> {
    match LoadDocument(regs, stylesDoc)
    case Err(c) => Err(c)
    case Ok(r) => LoadDocument(r, contentDoc)
  }

  /** After a successful load the `"Standard"` text and paragraph styles are
      still the seeded defaults, whatever the documents declare. */
  lemma LoadKeepsStandard(stylesDoc: Node, contentDoc: Node)
    requires Load(InitialRegisters, stylesDoc, contentDoc).Ok?
    ensures var r := Load(InitialRegisters, stylesDoc, contentDoc).value.styles;
      && "Standard" in r.textStyles && r.textStyles["Standard"] == DefaultTextProps
      && "Standard" in r.paragraphStyles && r.paragraphStyles["Standard"] == DefaultParagraphProps
  {
    var first := LoadDocument(InitialRegisters, stylesDoc).value;
    var decls := DocumentElementsByTag(stylesDoc, "office:font-face-decls");
    StandardKept(first.fixedFonts, SeededRegistry, DocumentElementsByTag(stylesDoc, "style:style"));
    StandardKept(Load(InitialRegisters, stylesDoc, contentDoc).value.fixedFonts, first.styles,
                 DocumentElementsByTag(contentDoc, "style:style"));
  }

  /** A text style declared in the content document overrides one of the same
      name from the styles document. */
  lemma ContentStylesWin(regs: Registers, stylesDoc: Node, contentDoc: Node, name: string)
    requires Load(regs, stylesDoc, contentDoc).Ok?
    requires LastDeclaration(DocumentElementsByTag(contentDoc, "style:style"), "text", name) >= 0
    ensures var r := Load(regs, stylesDoc, contentDoc).value;
      var styles := DocumentElementsByTag(contentDoc, "style:style");
      var j := LastDeclaration(styles, "text", name);
      && name in r.styles.textStyles
      && r.styles.textStyles[name] == ExtractTextProperties(r.fixedFonts, styles[j], Parent(styles[j]))
  {
    var first := LoadDocument(regs, stylesDoc).value;
    var r := Load(regs, stylesDoc, contentDoc).value;
    TextStyleEntry(r.fixedFonts, first.styles, DocumentElementsByTag(contentDoc, "style:style"), name);
  }
}
