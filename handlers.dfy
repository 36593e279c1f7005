/** The handlers of the FB2 reader as values, and what each of them writes when it
    is opened, receives text, receives a child and is closed. These functions are
    the specification the imperative reader in module Reader is proved against. */
module Handlers {
  import opened Wrappers
  import opened Markup
  import opened Ids
  import opened Keywords
  import opened Output

  /** A text handler's back-reference to the text handler that created it. */
  datatype Link = NoParent | Parent(node: TextNode)

  /** The state of a text handler (and of its anchor and image variants): the
      output tag (empty: nothing is written), the class, and the parent. The class
      is settled when the handler is opened and never changes afterwards, so a
      copy of the parent is as good as a reference to it. */
  datatype TextNode = TextNode(tag: string, style: string, parent: Link)

  datatype HeadKind = PlainHead | DescrHead | TitleHead

  datatype Handler =
    | RootHandler
    | HeadHandler(kind: HeadKind, empty: bool)
    | TextHandler(node: TextNode)
    | BinaryHandler(file: string, text: string)

  /** An open source element: its handler, or a placeholder for a subtree whose
      parent returned no handler. */
  datatype Frame = Open(handler: Handler) | Skipped

  /** A freshly opened handler, what its constructor wrote and how many ids it drew. */
  datatype Opened = Opened(handler: Handler, events: seq<Event>, ids: nat)

  /** The result of a `NewTag` call: the parent's new state and the child, if any. */
  datatype Step = Step(parent: Handler, child: Option<Opened>)

  /** The result of a `TxtTag` call. */
  datatype Fed = Fed(handler: Handler, events: seq<Event>)

  /** The result of an `EndTag` call. */
  datatype Closed = Closed(events: seq<Event>, assets: seq<Asset>)

  /** How many output elements a handler keeps open until it is closed. */
  function Opens(h: Handler): nat {
    match h
    case RootHandler => 2
    case HeadHandler(_, _) => 1
    case TextHandler(n) => if n.tag == "" then 0 else 1
    case BinaryHandler(_, _) => 0
  }

  // ---------------------------------------------------------------------------
  //  Footnote detection
  // ---------------------------------------------------------------------------

  /** The walk up the parent chain: this handler or an ancestor has class "notes". */
  function IsNotes(n: TextNode): bool {
    n.style == "notes" || (n.parent.Parent? && IsNotes(n.parent.node))
  }

  /** The handler followed by all its ancestors, nearest first. */
  function Chain(n: TextNode): (c: seq<TextNode>)
    ensures |c| >= 1 && c[0] == n
  {
    [n] + (if n.parent.Parent? then Chain(n.parent.node) else [])
  }

  lemma {:induction false} IsNotesIffChain(n: TextNode)
    ensures IsNotes(n) <==> exists i :: 0 <= i < |Chain(n)| && Chain(n)[i].style == "notes"
  {
    if n.parent.Parent? {
      var p := n.parent.node;
      IsNotesIffChain(p);
      assert Chain(n) == [n] + Chain(p);
      if IsNotes(n) && n.style != "notes" {
        var j :| 0 <= j < |Chain(p)| && Chain(p)[j].style == "notes";
        assert Chain(n)[j + 1] == Chain(p)[j];
      }
      if i :| 0 <= i < |Chain(n)| && Chain(n)[i].style == "notes" {
        if i > 0 { assert Chain(p)[i - 1] == Chain(n)[i]; }
      }
    } else {
      assert Chain(n) == [n];
    }
  }

  /** A link whose target is inside a notes subtree. */
  predicate ParentIsNotes(p: Link) {
    p.Parent? && IsNotes(p.node)
  }

  // ---------------------------------------------------------------------------
  //  Text handlers
  // ---------------------------------------------------------------------------

  /** The id attribute a text handler writes: the source id verbatim, else a
      fresh one for `div` and `img`, else none. */
  function IdAttr(tag: string, id: string, next: nat): (r: seq<Event>)
    ensures |r| <= 1 && forall i :: 0 <= i < |r| ==> r[i].Attribute? && r[i].name == "id"
    ensures AttrValues(r, "id") ==
              if id != "" then [id] else if tag == "div" || tag == "img" then [IdOf(next + 1)] else []
  {
    if id != "" then [Attribute("id", id)]
    else if tag == "div" || tag == "img" then [Attribute("id", IdOf(next + 1))]
    else []
  }

  /** The class a text handler ends up with: a section with an id inside a notes
      subtree becomes "note", a body named "notes" becomes "notes". */
  function FinalStyle(style: string, id: string, parentNotes: bool, name: string): (s: string)
    ensures style != "note" ==> (s == "note" <==> style == "section" && id != "" && parentNotes)
    ensures style != "notes" ==> (s == "notes" <==> style == "body" && Lower(name) == "notes")
    ensures s != "note" && s != "notes" ==> s == style
    ensures s == "" <==> style == ""
  {
    var style1 := if id != "" && style == "section" && parentNotes then "note" else style;
    if style1 == "body" && Lower(name) == "notes" then "notes" else style1
  }

  /** What a text handler with a non-empty tag writes, given the source id and
      the class it settled on: the start tag, the id attribute, and the class
      attribute when the class is not empty. */
  function TagOpened(tag: string, id: string, final: string, parent: Link, next: nat): (r: Opened)
    ensures r.handler == TextHandler(TextNode(tag, final, parent)) && Depth(r.events) == 1
    ensures r.ids == if id == "" && (tag == "div" || tag == "img") then 1 else 0
  {
    var idAttr := IdAttr(tag, id, next);
    var classAttr := if final != "" then [Attribute("class", final)] else [];
    DepthAppend([StartElement(tag)] + idAttr, classAttr);
    DepthAppend([StartElement(tag)], idAttr);
    DepthZero(idAttr);
    DepthZero(classAttr);
    Opened(TextHandler(TextNode(tag, final, parent)), [StartElement(tag)] + idAttr + classAttr,
           if id == "" && (tag == "div" || tag == "img") then 1 else 0)
  }

  /** The start tag comes first, and only id and class attributes follow: the
      source id, else a fresh one for `div` and `img`; the class when it is not
      empty. */
  lemma TagOpenedWrites(tag: string, id: string, final: string, parent: Link, next: nat)
    ensures var r := TagOpened(tag, id, final, parent, next);
      && |r.events| >= 1 && r.events[0] == StartElement(tag)
      && (forall i :: 1 <= i < |r.events| ==> r.events[i].Attribute? && r.events[i].name in {"id", "class"})
      && (forall name :: name != "id" && name != "class" ==> AttrValues(r.events, name) == [])
      && AttrValues(r.events, "id") ==
           (if id != "" then [id] else if tag == "div" || tag == "img" then [IdOf(next + 1)] else [])
      && AttrValues(r.events, "class") == (if final != "" then [final] else [])
  {
    var idAttr := IdAttr(tag, id, next);
    var classAttr := if final != "" then [Attribute("class", final)] else [];
    InitEvents(tag, idAttr, classAttr);
    assert TagOpened(tag, id, final, parent, next).events == [StartElement(tag)] + idAttr + classAttr;
  }

  /** A start tag followed by at most one id and at most one class attribute. */
  lemma InitEvents(tag: string, idAttr: seq<Event>, classAttr: seq<Event>)
    requires |idAttr| <= 1 && forall i :: 0 <= i < |idAttr| ==> idAttr[i].Attribute? && idAttr[i].name == "id"
    requires |classAttr| <= 1 && forall i :: 0 <= i < |classAttr| ==> classAttr[i].Attribute? && classAttr[i].name == "class"
    ensures var e := [StartElement(tag)] + idAttr + classAttr;
      && AttrValues(e, "id") == AttrValues(idAttr, "id")
      && AttrValues(e, "class") == AttrValues(classAttr, "class")
      && (forall i :: 1 <= i < |e| ==> e[i].Attribute? && e[i].name in {"id", "class"})
      && (forall name :: name != "id" && name != "class" ==> AttrValues(e, name) == [])
  {
    var e := [StartElement(tag)] + idAttr + classAttr;
    forall name | name != "id" && name != "class"
      ensures AttrValues(e, name) == []
    {
      AttrValuesNone(e, name);
    }
    AttrValuesAppend([StartElement(tag)] + idAttr, classAttr, "id");
    AttrValuesAppend([StartElement(tag)], idAttr, "id");
    AttrValuesAppend([StartElement(tag)] + idAttr, classAttr, "class");
    AttrValuesAppend([StartElement(tag)], idAttr, "class");
    AttrValuesNone(classAttr, "id");
    AttrValuesNone(idAttr, "class");
  }

  lemma {:induction false} DepthZero(events: seq<Event>)
    requires forall i :: 0 <= i < |events| ==> events[i].Attribute?
    ensures Depth(events) == 0
  {
    if events != [] { DepthZero(events[1..]); }
  }

  /** What a text handler writes when it opens: the start tag, the id (verbatim,
      or fresh for `div` and `img`), and the class. A section with an id inside a
      notes subtree gets class "note"; a body named "notes" gets class "notes".
      `next` is the writer's id counter before the call. */
  function TextInit(tag: string, style: string, atts: Attrs, parent: Link, next: nat): (r: Opened)
    ensures r.handler.TextHandler? && r.handler.node.tag == tag && r.handler.node.parent == parent
    ensures tag == "" ==> r.events == [] && r.ids == 0 && r.handler.node.style == style
    ensures Depth(r.events) == if tag == "" then 0 else 1
  {
    var self := TextNode(tag, style, parent);
    if tag == "" then Opened(TextHandler(self), [], 0)
    else
      var id := Value(atts, "id");
      // the check of isNotes() happens while the handler's own class is still `style`
      TagOpened(tag, id, FinalStyle(style, id, style == "section" && IsNotes(self), Value(atts, "name")), parent, next)
  }

  /** What TextInit writes: the start tag, then only id and class attributes;
      the id is the source id verbatim, else a fresh one (the next id) for `div`
      and `img`; the class is written exactly when the style is not empty, and
      it is the handler's final class. */
  lemma TextInitWrites(tag: string, style: string, atts: Attrs, parent: Link, next: nat)
    ensures var r := TextInit(tag, style, atts, parent, next);
      && (tag != "" ==> |r.events| >= 1 && r.events[0] == StartElement(tag))
      && (forall name :: name != "id" && name != "class" ==> AttrValues(r.events, name) == [])
      && AttrValues(r.events, "id") ==
           (if tag == "" then []
            else if Value(atts, "id") != "" then [Value(atts, "id")]
            else if tag == "div" || tag == "img" then [IdOf(next + 1)]
            else [])
      && AttrValues(r.events, "class") == (if tag != "" && style != "" then [r.handler.node.style] else [])
      && r.ids == (if tag != "" && Value(atts, "id") == "" && (tag == "div" || tag == "img") then 1 else 0)
  {
    if tag != "" {
      var id := Value(atts, "id");
      TagOpenedWrites(tag, id, FinalStyle(style, id, style == "section" && IsNotes(TextNode(tag, style, parent)), Value(atts, "name")), parent, next);
    }
  }

  /** The class TextInit settles on: "note" exactly for an identified section
      under a notes handler, "notes" exactly for a body named "notes" (in any
      case), and otherwise the style it was given. */
  lemma TextInitClass(tag: string, style: string, atts: Attrs, parent: Link, next: nat)
    ensures var r := TextInit(tag, style, atts, parent, next);
      && (style != "note" ==>
            (r.handler.node.style == "note" <==>
             tag != "" && style == "section" && Value(atts, "id") != "" && ParentIsNotes(parent)))
      && (style != "notes" ==>
            (r.handler.node.style == "notes" <==>
             tag != "" && style == "body" && Lower(Value(atts, "name")) == "notes"))
      && (r.handler.node.style != "note" && r.handler.node.style != "notes" ==> r.handler.node.style == style)
  {
  }

  /** An anchor: a text handler with tag `a` and no class, then the reference
      copied verbatim. */
  function OpenAnchor(parent: TextNode, atts: Attrs, next: nat): (r: Opened)
    ensures r.handler == TextHandler(TextNode("a", "", Parent(parent))) && r.ids == 0 && Depth(r.events) == 1
  {
    var init := TextInit("a", "", atts, Parent(parent), next);
    var extra := [Attribute("href", Value(atts, "href"))];
    DepthAppend(init.events, extra);
    Opened(init.handler, init.events + extra, init.ids)
  }

  /** The anchor carries the source id (if any), no class, and exactly one
      reference: the source's, verbatim. */
  lemma OpenAnchorSpec(parent: TextNode, atts: Attrs, next: nat)
    ensures var r := OpenAnchor(parent, atts, next);
      && |r.events| >= 2 && r.events[0] == StartElement("a")
      && AttrValues(r.events, "href") == [Value(atts, "href")]
      && AttrValues(r.events, "id") == (if Value(atts, "id") != "" then [Value(atts, "id")] else [])
      && AttrValues(r.events, "class") == []
  {
    var init := TextInit("a", "", atts, Parent(parent), next);
    var extra := [Attribute("href", Value(atts, "href"))];
    TextInitWrites("a", "", atts, Parent(parent), next);
    AttrValuesAppend(init.events, extra, "href");
    AttrValuesAppend(init.events, extra, "id");
    AttrValuesAppend(init.events, extra, "class");
  }

  /** A stretch of output without a `name` attribute has no values for it. */
  lemma {:induction false} AttrValuesNone(events: seq<Event>, name: string)
    requires forall i :: 0 <= i < |events| ==> !(events[i].Attribute? && events[i].name == name)
    ensures AttrValues(events, name) == []
  {
    if events != [] {
      AttrValuesNone(events[1..], name);
    }
  }

  function Hashes(k: nat): (s: string)
    ensures |s| == k && forall i :: 0 <= i < k ==> s[i] == '#'
  {
    seq(k, _ => '#')
  }

  /** The reference with every leading '#' removed. */
  function Stripped(href: string): string {
    if href != [] && href[0] == '#' then Stripped(href[1..]) else href
  }

  /** Stripping leaves a reference that does not start with '#', and removes
      nothing but a run of leading '#'. */
  lemma {:induction false} StrippedRemovesHashes(href: string)
    ensures var r := Stripped(href);
      (r == [] || r[0] != '#') && |r| <= |href| && href == Hashes(|href| - |r|) + r
  {
    if href != [] && href[0] == '#' {
      StrippedRemovesHashes(href[1..]);
      var r := Stripped(href);
      assert href == [href[0]] + href[1..];
      assert Hashes(|href| - |r|) == [href[0]] + Hashes(|href[1..]| - |r|);
    }
  }

  /** An image: a text handler with tag `img`, no class and no parent, then the
      resolved local path and the stripped reference as fallback text. */
  function OpenImage(atts: Attrs, next: nat, resolve: string -> string): (r: Opened)
    ensures r.handler == TextHandler(TextNode("img", "", NoParent)) && Depth(r.events) == 1
    ensures r.ids == if Value(atts, "id") == "" then 1 else 0
  {
    var init := TextInit("img", "", atts, NoParent, next);
    var href := Stripped(Value(atts, "href"));
    var extra := [Attribute("src", resolve(href)), Attribute("alt", href)];
    DepthAppend(init.events, extra);
    DepthZero(extra);
    Opened(init.handler, init.events + extra, init.ids)
  }

  /** The image always carries an id (the source's, else a fresh one), exactly
      one source, the path the host resolves for the reference without its
      leading '#', and exactly one fallback text, that reference; both come last. */
  lemma OpenImageSpec(atts: Attrs, next: nat, resolve: string -> string)
    ensures var r := OpenImage(atts, next, resolve);
      var href := Stripped(Value(atts, "href"));
      && |r.events| >= 3 && r.events[0] == StartElement("img")
      && AttrValues(r.events, "id") == [if Value(atts, "id") != "" then Value(atts, "id") else IdOf(next + 1)]
      && AttrValues(r.events, "src") == [resolve(href)]
      && AttrValues(r.events, "alt") == [href]
      && r.events[|r.events| - 2..] == [Attribute("src", resolve(href)), Attribute("alt", href)]
  {
    var init := TextInit("img", "", atts, NoParent, next);
    var href := Stripped(Value(atts, "href"));
    TextInitWrites("img", "", atts, NoParent, next);
    WithSource(init.events, resolve(href), href);
    var r := OpenImage(atts, next, resolve);
    assert r.events == init.events + [Attribute("src", resolve(href)), Attribute("alt", href)];
  }

  /** A source and a fallback text appended to output that had neither. */
  lemma WithSource(init: seq<Event>, path: string, href: string)
    requires AttrValues(init, "src") == [] && AttrValues(init, "alt") == []
    ensures var r := init + [Attribute("src", path), Attribute("alt", href)];
      && AttrValues(r, "id") == AttrValues(init, "id")
      && AttrValues(r, "src") == [path] && AttrValues(r, "alt") == [href]
      && r[|r| - 2..] == [Attribute("src", path), Attribute("alt", href)]
  {
    var extra := [Attribute("src", path), Attribute("alt", href)];
    AttrValuesAppend(init, extra, "id");
    AttrValuesAppend(init, extra, "src");
    AttrValuesAppend(init, extra, "alt");
    assert extra[1..] == [Attribute("alt", href)];
    assert AttrValues(extra, "id") == [] && AttrValues(extra, "src") == [path] && AttrValues(extra, "alt") == [href];
  }

  /** What a text handler makes of a child tag. */
  datatype TextChildKind = AnchorChild | ImageChild | PlainChild(tag: string, style: string)

  /** The keyword switch of TextHandler::NewTag. */
  function TextChildOf(name: string): (c: TextChildKind)
    ensures c == AnchorChild <==> name == "a"
    ensures c == ImageChild <==> name == "image"
    ensures c == PlainChild("div", name) <==> name in SectionNames
    ensures c == PlainChild("p", "") <==> name in ParagNames
    ensures name in InlineNames ==> c == PlainChild(InlineTags[name], "")
    ensures c.PlainChild? && c.style != "" ==> c.tag == "div" && c.style == name
    ensures c == PlainChild("", "") <==>
              !(name in SectionNames || name in ParagNames || name in InlineNames || name in {"a", "image"})
  {
    match TextKeywordOf(name)
    case Some(Anchor) => AnchorChild
    case Some(Image) => ImageChild
    case Some(Section) => PlainChild("div", name)
    case Some(Parag) => PlainChild("p", "")
    case Some(Strong) => PlainChild("b", "")
    case Some(Emphas) => PlainChild("i", "")
    case Some(Strike) => PlainChild("s", "")
    case Some(Code) => PlainChild("tt", "")
    case Some(Sub) => PlainChild("sub", "")
    case Some(Sup) => PlainChild("sup", "")
    case _ => PlainChild("", "")
  }

  // ---------------------------------------------------------------------------
  //  Head handlers
  // ---------------------------------------------------------------------------

  /** The source attributes copied under the "fb2:" prefix, in order. */
  function CopiedAttrs(atts: Attrs): (r: seq<Event>)
    ensures |r| == |atts|
    ensures forall i :: 0 <= i < |atts| ==> r[i] == Attribute("fb2:" + atts[i].qname, atts[i].value)
  {
    if atts == [] then [] else CopiedAttrs(atts[..|atts| - 1]) + [Attribute("fb2:" + atts[|atts| - 1].qname, atts[|atts| - 1].value)]
  }

  /** Copied attributes never open or close anything and never carry a plain name. */
  lemma {:induction false} CopiedAttrsInert(atts: Attrs, name: string)
    requires name == [] || name[0] != 'f'
    ensures Depth(CopiedAttrs(atts)) == 0 && AttrValues(CopiedAttrs(atts), name) == []
  {
    if atts != [] {
      var init, last := CopiedAttrs(atts[..|atts| - 1]), CopiedAttrs(atts)[|atts| - 1];
      assert CopiedAttrs(atts) == init + [last];
      CopiedAttrsInert(atts[..|atts| - 1], name);
      DepthAppend(init, [last]);
      AttrValuesAppend(init, [last], name);
      assert last.name[0] == 'f';
    }
  }

  /** A metadata wrapper: a `div` whose class is the source tag name, the copied
      attributes, and for description and title-info a fresh id. */
  function OpenHead(kind: HeadKind, name: string, atts: Attrs, next: nat): (r: Opened)
    ensures r.handler == HeadHandler(kind, true) && Depth(r.events) == 1
    ensures r.ids == if kind == PlainHead then 0 else 1
  {
    var start := [StartElement("div"), Attribute("class", name)];
    var idAttr := if kind == PlainHead then [] else [Attribute("id", IdOf(next + 1))];
    CopiedAttrsInert(atts, "id");
    DepthAppend(start + CopiedAttrs(atts), idAttr);
    DepthAppend(start, CopiedAttrs(atts));
    Opened(HeadHandler(kind, true), start + CopiedAttrs(atts) + idAttr, if kind == PlainHead then 0 else 1)
  }

  /** The wrapper's class is the tag name and nothing else; its id is a fresh
      one exactly for description and title-info; every source attribute is
      copied, in order, right after the class. */
  lemma OpenHeadSpec(kind: HeadKind, name: string, atts: Attrs, next: nat)
    ensures var r := OpenHead(kind, name, atts, next);
      && |r.events| == 2 + |atts| + r.ids && r.events[0] == StartElement("div")
      && AttrValues(r.events, "class") == [name]
      && AttrValues(r.events, "id") == (if kind == PlainHead then [] else [IdOf(next + 1)])
      && r.events[2..2 + |atts|] == CopiedAttrs(atts)
  {
    var start := [StartElement("div"), Attribute("class", name)];
    var idAttr := if kind == PlainHead then [] else [Attribute("id", IdOf(next + 1))];
    CopiedAttrsInert(atts, "class");
    CopiedAttrsInert(atts, "id");
    AttrValuesAppend(start + CopiedAttrs(atts), idAttr, "class");
    AttrValuesAppend(start, CopiedAttrs(atts), "class");
    AttrValuesAppend(start + CopiedAttrs(atts), idAttr, "id");
    AttrValuesAppend(start, CopiedAttrs(atts), "id");
  }

  /** A binary handler records the declared id and writes nothing. */
  function OpenBinary(atts: Attrs): Opened {
    Opened(BinaryHandler(Value(atts, "id"), ""), [], 0)
  }

  // ---------------------------------------------------------------------------
  //  The three callbacks
  // ---------------------------------------------------------------------------

  /** RootHandler::NewTag: only body, description and binary get a handler. */
  function RootChild(name: string, atts: Attrs, next: nat): (o: Option<Opened>)
    ensures o.Some? <==> name in {"body", "description", "binary"}
    ensures o.Some? ==> o.value.handler != RootHandler
    ensures name == "body" ==>
              o.value.handler.TextHandler? && o.value.handler.node.tag == "div" && o.value.handler.node.parent == NoParent
    ensures name == "description" ==> o.value.handler == HeadHandler(DescrHead, true)
    ensures name == "binary" ==> o.value == OpenBinary(atts)
  {
    match RootKeywordOf(name)
    case Some(Body) => Some(TextInit("div", name, atts, NoParent, next))
    case Some(Descr) => Some(OpenHead(DescrHead, name, atts, next))
    case Some(Binary) => Some(OpenBinary(atts))
    case _ => None
  }

  /** HeadHandler::NewTag: an image, or another metadata wrapper. */
  function HeadChild(name: string, atts: Attrs, next: nat, resolve: string -> string): (o: Opened)
    ensures o.handler != RootHandler
    ensures o.handler.TextHandler? <==> name == "image"
    ensures name == "image" ==> o.handler == TextHandler(TextNode("img", "", NoParent))
    ensures name != "image" ==> o.handler == HeadHandler(PlainHead, true)
  {
    if HeadKeywordOf(name).Some? then OpenImage(atts, next, resolve) else OpenHead(PlainHead, name, atts, next)
  }

  /** DescrHandler::NewTag: title-info, document-info, publish-info and custom-info. */
  function DescrChild(name: string, atts: Attrs, next: nat): (o: Option<Opened>)
    ensures o.Some? <==> name in {"title-info", "document-info", "publish-info", "custom-info"}
    ensures o.Some? ==> o.value.handler.HeadHandler?
                        && (o.value.handler.kind == TitleHead <==> name == "title-info")
    ensures o.Some? ==> o.value.handler == HeadHandler(if name == "title-info" then TitleHead else PlainHead, true)
  {
    match DescrKeywordOf(name)
    case Some(Title) => Some(OpenHead(TitleHead, name, atts, next))
    case Some(_) => Some(OpenHead(PlainHead, name, atts, next))
    case None => None
  }

  /** TitleHandler::NewTag: an annotation is text, anything else metadata. */
  function TitleChild(name: string, atts: Attrs, next: nat): (o: Opened)
    ensures o.handler != RootHandler
    ensures o.handler.TextHandler? <==> name == "annotation"
    ensures name == "annotation" ==>
              o.handler.TextHandler? && o.handler.node.tag == "div" && o.handler.node.parent == NoParent
    ensures name != "annotation" ==> o.handler == HeadHandler(PlainHead, true)
  {
    if name == "annotation" then TextInit("div", name, atts, NoParent, next) else OpenHead(PlainHead, name, atts, next)
  }

  /** TextHandler::NewTag: every child is a text handler, linked to this one
      unless it is an image. */
  function TextChild(n: TextNode, name: string, atts: Attrs, next: nat, resolve: string -> string): (o: Opened)
    ensures o.handler.TextHandler?
    ensures o.handler.node.parent == if name == "image" then NoParent else Parent(n)
  {
    match TextChildOf(name)
    case AnchorChild => OpenAnchor(n, atts, next)
    case ImageChild => OpenImage(atts, next, resolve)
    case PlainChild(tag, style) => TextInit(tag, style, atts, Parent(n), next)
  }

  /** NewTag of every handler kind: what handles the child `name`, and the
      parent's new state. `next` is the writer's id counter before the call. */
  function NewTag(h: Handler, name: string, atts: Attrs, next: nat, resolve: string -> string): (r: Step)
    ensures h.RootHandler? ==> r.parent == h && (r.child.Some? <==> name in {"body", "description", "binary"})
    ensures h.HeadHandler? && h.kind == PlainHead ==> r.parent == HeadHandler(PlainHead, false) && r.child.Some?
    ensures h.HeadHandler? && h.kind == DescrHead ==>
              r.parent == h && (r.child.Some? <==> name in {"title-info", "document-info", "publish-info", "custom-info"})
    ensures h.HeadHandler? && h.kind == TitleHead ==> r.parent == h && r.child.Some?
    ensures h.TextHandler? ==> r.parent == h && r.child.Some? && r.child.value.handler.TextHandler?
    ensures h.BinaryHandler? ==> r == Step(h, None)
    ensures r.child.Some? ==> r.child.value.handler != RootHandler
  {
    match h
    case RootHandler => Step(h, RootChild(name, atts, next))
    case HeadHandler(PlainHead, _) => Step(HeadHandler(PlainHead, false), Some(HeadChild(name, atts, next, resolve)))
    case HeadHandler(DescrHead, _) => Step(h, DescrChild(name, atts, next))
    case HeadHandler(TitleHead, _) => Step(h, Some(TitleChild(name, atts, next)))
    case TextHandler(n) => Step(h, Some(TextChild(n, name, atts, next, resolve)))
    case BinaryHandler(_, _) => Step(h, None)
  }

  /** TxtTag of every handler kind. */
  function TxtTag(h: Handler, text: string): (r: Fed)
    ensures Opens(r.handler) == Opens(h) && Depth(r.events) == 0
    ensures h.HeadHandler? ==> r == Fed(h.(empty := false), [Characters(text)])
    ensures h.TextHandler? ==> r == Fed(h, [Characters(text)])
    ensures h.BinaryHandler? ==> r == Fed(h.(text := h.text + text), [])
    ensures h.RootHandler? ==> r == Fed(h, [])
  {
    match h
    case RootHandler => Fed(h, [])
    case HeadHandler(kind, _) => Fed(HeadHandler(kind, false), [Characters(text)])
    case TextHandler(_) => Fed(h, [Characters(text)])
    case BinaryHandler(file, buffer) => Fed(BinaryHandler(file, buffer + text), [])
  }

  /** EndTag of every handler kind: closing markup and delivered assets. */
  function EndTag(h: Handler, decode: string -> seq<bv8>): (r: Closed)
    ensures Depth(r.events) + Opens(h) == 0
    ensures h.RootHandler? ==> r.events == [EndElement, EndElement, EndDocument] && r.assets == []
    ensures h.HeadHandler? ==>
              r.events[|r.events| - 1] == EndElement && (Characters(" ") in r.events <==> h.empty)
              && |r.events| <= 2 && r.assets == []
    ensures h.HeadHandler? && !h.empty ==> r.events == [EndElement]
    ensures h.TextHandler? ==>
              (r.events == [] <==> h.node.tag == "") && (Characters(" ") in r.events <==> h.node.tag == "div")
              && |r.events| <= 2 && r.assets == []
    ensures h.TextHandler? && h.node.tag != "" ==> r.events[|r.events| - 1] == EndElement
    ensures h.TextHandler? && h.node.tag != "" && h.node.tag != "div" ==> r.events == [EndElement]
    ensures h.BinaryHandler? ==>
              r.events == [] && (r.assets != [] <==> h.file != "")
              && (r.assets != [] ==> r.assets == [Asset(h.file, decode(h.text))])
  {
    match h
    case RootHandler => Closed([EndElement, EndElement, EndDocument], [])
    case HeadHandler(_, empty) => Closed(if empty then [Characters(" "), EndElement] else [EndElement], [])
    case TextHandler(n) =>
      Closed(if n.tag == "" then [] else if n.tag == "div" then [Characters(" "), EndElement] else [EndElement], [])
    case BinaryHandler(file, text) =>
      Closed([], if file != "" then [Asset(file, decode(text))] else [])
  }

  // ---------------------------------------------------------------------------
  //  Properties relating several calls
  // ---------------------------------------------------------------------------

  /** Every NewTag keeps the output balanced: the parent stays as open as it was
      and the child's constructor opens exactly what its EndTag will close. */
  lemma NewTagBalanced(h: Handler, name: string, atts: Attrs, next: nat, resolve: string -> string)
    ensures var r := NewTag(h, name, atts, next, resolve);
      Opens(r.parent) == Opens(h)
      && (r.child.Some? ==> Depth(r.child.value.events) == Opens(r.child.value.handler)
                            && Depth(r.child.value.events) + Depth(EndTag(r.child.value.handler, x => []).events) == 0)
  {
    var r := NewTag(h, name, atts, next, resolve);
    if r.child.Some? {
      var o := r.child.value;
      if o.handler.TextHandler? && o.handler.node.tag == "" {
        assert Depth(o.events) == 0;
      }
    }
  }

  /** A text child keeps a link exactly to the text handler that created it; every
      other way of creating a text handler leaves it without a parent. */
  lemma NewTagLinksParent(h: Handler, name: string, atts: Attrs, next: nat, resolve: string -> string)
    ensures var r := NewTag(h, name, atts, next, resolve);
      r.child.Some? && r.child.value.handler.TextHandler? && r.child.value.handler.node.parent.Parent?
      ==> h == TextHandler(r.child.value.handler.node.parent.node) && name != "image"
  {
  }

  /** Notes detection along a created text child: with an id, a section child of
      a text handler gets class "note" exactly when the parent's chain holds a
      "notes" handler. */
  lemma SectionNoteClass(n: TextNode, atts: Attrs, next: nat, resolve: string -> string)
    requires Value(atts, "id") != ""
    ensures var r := NewTag(TextHandler(n), "section", atts, next, resolve);
      r.child.Some? &&
      (r.child.value.handler.node.style == "note" <==>
       exists i :: 0 <= i < |Chain(n)| && Chain(n)[i].style == "notes")
  {
    TextInitClass("div", "section", atts, Parent(n), next);
    IsNotesIffChain(n);
  }

  /** A body becomes the notes body exactly when its name is "notes" in any
      mix of upper and lower case. */
  lemma NotesBodyIgnoringCase(atts: Attrs, next: nat)
    ensures var o := RootChild("body", atts, next);
      o.Some? && o.value.handler.TextHandler?
      && (o.value.handler.node.style == "notes" <==> EqualsIgnoringCase(Value(atts, "name"), "notes"))
  {
    TextInitClass("div", "body", atts, NoParent, next);
    LowerEqualsIffIgnoringCase(Value(atts, "name"), "notes");
  }

  /** The text handlers feeding a handler, one chunk at a time. */
  function Feed(h: Handler, chunks: seq<string>): Handler
    decreases |chunks|
  {
    if chunks == [] then h else Feed(TxtTag(h, chunks[0]).handler, chunks[1..])
  }

  function Concat(chunks: seq<string>): string {
    if chunks == [] then "" else chunks[0] + Concat(chunks[1..])
  }

  lemma {:induction false} FeedBinary(file: string, text: string, chunks: seq<string>)
    ensures Feed(BinaryHandler(file, text), chunks) == BinaryHandler(file, text + Concat(chunks))
    decreases |chunks|
  {
    if chunks != [] {
      FeedBinary(file, text + chunks[0], chunks[1..]);
      assert text + chunks[0] + Concat(chunks[1..]) == text + (chunks[0] + Concat(chunks[1..]));
    } else {
      assert text + "" == text;
    }
  }

  /** A binary element delivers exactly one asset, the decoded concatenation of
      its text, when it declares an id, and nothing otherwise; how the text was
      split into chunks does not matter. */
  lemma BinaryDelivers(atts: Attrs, chunks: seq<string>, decode: string -> seq<bv8>)
    ensures var c := EndTag(Feed(OpenBinary(atts).handler, chunks), decode);
      c.events == []
      && c.assets == if Value(atts, "id") != "" then [Asset(Value(atts, "id"), decode(Concat(chunks)))] else []
  {
    FeedBinary(Value(atts, "id"), "", chunks);
    assert "" + Concat(chunks) == Concat(chunks);
  }

  lemma ChunkingIrrelevant(atts: Attrs, c1: seq<string>, c2: seq<string>, decode: string -> seq<bv8>)
    requires Concat(c1) == Concat(c2)
    ensures EndTag(Feed(OpenBinary(atts).handler, c1), decode) == EndTag(Feed(OpenBinary(atts).handler, c2), decode)
  {
    BinaryDelivers(atts, c1, decode);
    BinaryDelivers(atts, c2, decode);
  }

  /** A metadata handler writes the placeholder on closing exactly when it saw no
      text. */
  lemma {:induction false} HeadPlaceholder(kind: HeadKind, chunks: seq<string>, decode: string -> seq<bv8>)
    ensures var h := Feed(HeadHandler(kind, true), chunks);
      h.HeadHandler? && h.kind == kind
      && (Characters(" ") in EndTag(h, decode).events <==> chunks == [])
  {
    if chunks != [] {
      HeadFedStaysFull(kind, chunks[1..]);
    }
  }

  /** What a metadata handler receives between its opening and its closing. */
  datatype HeadInput = TextIn(text: string) | ChildIn(name: string, atts: Attrs)

  /** The handler's state after a run of text chunks and children; the id
      counter does not affect the parent's state, so it is left at 0. */
  function HeadRun(h: Handler, ins: seq<HeadInput>, resolve: string -> string): Handler
    decreases |ins|
  {
    if ins == [] then h
    else
      var h1 := match ins[0]
        case TextIn(text) => TxtTag(h, text).handler
        case ChildIn(name, atts) => NewTag(h, name, atts, 0, resolve).parent;
      HeadRun(h1, ins[1..], resolve)
  }

  /** Nothing in the run fills the handler: there is no text, and no child of
      a plain head (so a plain head is unfilled only by an empty run). */
  predicate Unfilled(kind: HeadKind, ins: seq<HeadInput>) {
    forall i :: 0 <= i < |ins| ==> ins[i].ChildIn? && kind != PlainHead
  }

  lemma {:induction false} HeadRunState(kind: HeadKind, empty: bool, ins: seq<HeadInput>, resolve: string -> string)
    ensures HeadRun(HeadHandler(kind, empty), ins, resolve) == HeadHandler(kind, empty && Unfilled(kind, ins))
    decreases |ins|
  {
    if ins != [] {
      var h := HeadHandler(kind, empty);
      var h1 := match ins[0]
        case TextIn(text) => TxtTag(h, text).handler
        case ChildIn(name, atts) => NewTag(h, name, atts, 0, resolve).parent;
      assert h1 == HeadHandler(kind, empty && ins[0].ChildIn? && kind != PlainHead);
      HeadRunState(kind, h1.empty, ins[1..], resolve);
      if Unfilled(kind, ins[1..]) && ins[0].ChildIn? && kind != PlainHead {
        forall i | 0 <= i < |ins| ensures ins[i].ChildIn? && kind != PlainHead {
          if i > 0 { assert ins[i] == ins[1..][i - 1]; }
        }
      }
      if Unfilled(kind, ins) {
        forall i | 0 <= i < |ins[1..]| ensures ins[1..][i].ChildIn? && kind != PlainHead {
          assert ins[1..][i] == ins[i + 1];
        }
      }
    }
  }

  /** With text and children interleaved: a plain head writes the placeholder
      exactly when it received neither text nor a child, a description or
      title-info head exactly when it received no text. */
  lemma HeadPlaceholderInterleaved(kind: HeadKind, ins: seq<HeadInput>, resolve: string -> string,
                                   decode: string -> seq<bv8>)
    ensures var h := HeadRun(HeadHandler(kind, true), ins, resolve);
      Characters(" ") in EndTag(h, decode).events <==> Unfilled(kind, ins)
  {
    HeadRunState(kind, true, ins, resolve);
  }

  lemma {:induction false} HeadFedStaysFull(kind: HeadKind, chunks: seq<string>)
    ensures Feed(HeadHandler(kind, false), chunks) == HeadHandler(kind, false)
    decreases |chunks|
  {
    if chunks != [] {
      HeadFedStaysFull(kind, chunks[1..]);
    }
  }
}
