/** The FB2 reader proper: the handler constructors and callbacks, which write to
    the shared writer as they go, and the driver that keeps the stack of open
    source elements and routes each tokenizer event to the handler on top. Every
    method is proved to do what the functions of module Handlers specify. */
module Reader {
  import opened Wrappers
  import opened Markup
  import opened Ids
  import opened Output
  import opened Handlers

  /** The error CreateRoot sets for a document whose root is not `fictionbook`. */
  const NotFb2Error := "The file is not an FB2 file."

  /** The writer has received exactly `o`'s events and ids since it held
      `events0` and `lastId0`. */
  ghost predicate Wrote(w: Writer, events0: seq<Event>, lastId0: nat, o: Opened)
    reads w
  {
    w.events == events0 + o.events && w.lastId == lastId0 + o.ids
  }

  /** The writer has received what the optional child `o` wrote, and `child` is
      its handler (or none). */
  ghost predicate Created(w: Writer, events0: seq<Event>, lastId0: nat, o: Option<Opened>, child: Option<Handler>)
    reads w
  {
    match o
    case None => child == None && w.events == events0 && w.lastId == lastId0
    case Some(made) => child == Some(made.handler) && Wrote(w, events0, lastId0, made)
  }

  // ---------------------------------------------------------------------------
  //  Handler constructors
  // ---------------------------------------------------------------------------

  /** TextHandler::Init: start tag, id and class. */
  method NewTextHandler(w: Writer, atts: Attrs, tag: string, style: string, parent: Link) returns (h: Handler)
    modifies w`events, w`lastId
    ensures var o := TextInit(tag, style, atts, parent, old(w.lastId)); h == o.handler && Wrote(w, old(w.events), old(w.lastId), o)
  {
    var node := TextNode(tag, style, parent);
    if tag == "" {
      return TextHandler(node);
    }
    w.WriteStartElement(tag);
    var id := Value(atts, "id");
    ghost var final := FinalStyle(style, id, style == "section" && IsNotes(node), Value(atts, "name"));
    if id != "" && node.style == "section" && IsNotes(node) {
      node := node.(style := "note");
    }
    WriteIdAttribute(w, tag, id);
    ghost var e1 := w.events;
    if node.style != "" {
      if node.style == "body" && Lower(Value(atts, "name")) == "notes" {
        node := node.(style := "notes");
      }
      w.WriteAttribute("class", node.style);
    }
    assert node.style == final;
    ghost var classAttr := if final != "" then [Attribute("class", final)] else [];
    assert w.events == e1 + classAttr;
    Append4(old(w.events), [StartElement(tag)], IdAttr(tag, id, old(w.lastId)), classAttr);
    TextInitUnfold(tag, style, atts, parent, old(w.lastId));
    h := TextHandler(node);
  }

  /** The id part of TextHandler::Init: the source id verbatim, else a fresh one
      for `div` and `img`. */
  method WriteIdAttribute(w: Writer, tag: string, id: string)
    modifies w`events, w`lastId
    ensures w.events == old(w.events) + IdAttr(tag, id, old(w.lastId))
    ensures w.lastId == old(w.lastId) + (if id == "" && (tag == "div" || tag == "img") then 1 else 0)
  {
    if id != "" {
      w.WriteAttribute("id", id);
    } else if tag == "div" || tag == "img" {
      var newId := w.NewId();
      w.WriteAttribute("id", newId);
    }
  }

  lemma Append4(a: seq<Event>, b: seq<Event>, c: seq<Event>, d: seq<Event>)
    ensures a + b + c + d == a + (b + c + d)
  {
  }

  /** TextInit of a non-empty tag, spelled out by its parts. */
  lemma TextInitUnfold(tag: string, style: string, atts: Attrs, parent: Link, next: nat)
    requires tag != ""
    ensures var id := Value(atts, "id");
      var final := FinalStyle(style, id, style == "section" && IsNotes(TextNode(tag, style, parent)), Value(atts, "name"));
      TextInit(tag, style, atts, parent, next)
      == Opened(TextHandler(TextNode(tag, final, parent)),
                [StartElement(tag)] + IdAttr(tag, id, next) + (if final != "" then [Attribute("class", final)] else []),
                if id == "" && (tag == "div" || tag == "img") then 1 else 0)
  {
  }

  /** HeadHandler, DescrHandler and TitleHandler constructors: a `div` classed by
      the tag name, the source attributes under "fb2:", and for the last two a
      fresh id. */
  method NewHeadHandler(w: Writer, kind: HeadKind, name: string, atts: Attrs) returns (h: Handler)
    modifies w`events, w`lastId
    ensures var o := OpenHead(kind, name, atts, old(w.lastId)); h == o.handler && Wrote(w, old(w.events), old(w.lastId), o)
  {
    w.WriteStartElement("div");
    w.WriteAttribute("class", name);
    ghost var start := [StartElement("div"), Attribute("class", name)];
    assert w.events == old(w.events) + start;
    CopyAttributes(w, atts);
    ghost var idAttr: seq<Event> := [];
    if kind != PlainHead {
      var id := w.NewId();
      w.WriteAttribute("id", id);
      idAttr := [Attribute("id", id)];
    }
    Append4(old(w.events), start, CopiedAttrs(atts), idAttr);
    h := HeadHandler(kind, true);
  }

  /** The attribute-copy loop of the HeadHandler constructor. */
  method CopyAttributes(w: Writer, atts: Attrs)
    modifies w`events
    ensures w.events == old(w.events) + CopiedAttrs(atts)
  {
    for i := 0 to |atts|
      invariant w.events == old(w.events) + CopiedAttrs(atts[..i])
    {
      assert atts[..i + 1][..i] == atts[..i];
      w.WriteAttribute("fb2:" + atts[i].qname, atts[i].value);
    }
    assert atts[..|atts|] == atts;
  }

  /** AnchorHandler: a text handler with tag `a`, then the reference as given. */
  method NewAnchorHandler(w: Writer, parent: TextNode, atts: Attrs) returns (h: Handler)
    modifies w`events, w`lastId
    ensures var o := OpenAnchor(parent, atts, old(w.lastId)); h == o.handler && Wrote(w, old(w.events), old(w.lastId), o)
  {
    h := NewTextHandler(w, atts, "a", "", Parent(parent));
    var href := Value(atts, "href");
    w.WriteAttribute("href", href);
  }

  /** Removes every leading '#' of an image reference. */
  method StripHashes(href: string) returns (s: string)
    ensures s == Stripped(href)
  {
    s := href;
    while s != [] && s[0] == '#'
      invariant Stripped(s) == Stripped(href)
    {
      s := s[1..];
    }
  }

  /** ImageHandler: a text handler with tag `img` and no parent, then the path the
      host resolves for the stripped reference, and the stripped reference. */
  method NewImageHandler(w: Writer, atts: Attrs) returns (h: Handler)
    modifies w`events, w`lastId
    ensures var o := OpenImage(atts, old(w.lastId), w.resolve); h == o.handler && Wrote(w, old(w.events), old(w.lastId), o)
  {
    ghost var init := TextInit("img", "", atts, NoParent, w.lastId);
    h := NewTextHandler(w, atts, "img", "", NoParent);
    var href := StripHashes(Value(atts, "href"));
    var path := w.GetFile(href);
    w.WriteAttribute("src", path);
    w.WriteAttribute("alt", href);
    Append4(old(w.events), init.events, [Attribute("src", path)], [Attribute("alt", href)]);
    assert [Attribute("src", path)] + [Attribute("alt", href)] == [Attribute("src", path), Attribute("alt", href)];
  }

  // ---------------------------------------------------------------------------
  //  NewTag of each handler kind
  // ---------------------------------------------------------------------------

  method RootNewTag(w: Writer, name: string, atts: Attrs) returns (child: Option<Handler>)
    modifies w`events, w`lastId
    ensures Created(w, old(w.events), old(w.lastId), RootChild(name, atts, old(w.lastId)), child)
  {
    match Keywords.RootKeywordOf(name)
    case Some(Body) =>
      var h := NewTextHandler(w, atts, "div", name, NoParent);
      child := Some(h);
    case Some(Descr) =>
      var h := NewHeadHandler(w, DescrHead, name, atts);
      child := Some(h);
    case Some(Binary) =>
      child := Some(BinaryHandler(Value(atts, "id"), ""));
    case _ =>
      child := None;
  }

  /** HeadHandler::NewTag: every child is handled, and the head is no longer empty. */
  method HeadNewTag(w: Writer, name: string, atts: Attrs) returns (child: Option<Handler>)
    modifies w`events, w`lastId
    ensures Created(w, old(w.events), old(w.lastId), Some(HeadChild(name, atts, old(w.lastId), w.resolve)), child)
  {
    var h;
    if Keywords.HeadKeywordOf(name).Some? {
      h := NewImageHandler(w, atts);
    } else {
      h := NewHeadHandler(w, PlainHead, name, atts);
    }
    child := Some(h);
  }

  method DescrNewTag(w: Writer, name: string, atts: Attrs) returns (child: Option<Handler>)
    modifies w`events, w`lastId
    ensures Created(w, old(w.events), old(w.lastId), DescrChild(name, atts, old(w.lastId)), child)
  {
    match Keywords.DescrKeywordOf(name)
    case Some(Title) =>
      var h := NewHeadHandler(w, TitleHead, name, atts);
      child := Some(h);
    case Some(_) =>
      var h := NewHeadHandler(w, PlainHead, name, atts);
      child := Some(h);
    case None =>
      child := None;
  }

  method TitleNewTag(w: Writer, name: string, atts: Attrs) returns (child: Option<Handler>)
    modifies w`events, w`lastId
    ensures Created(w, old(w.events), old(w.lastId), Some(TitleChild(name, atts, old(w.lastId))), child)
  {
    var h;
    if name == "annotation" {
      h := NewTextHandler(w, atts, "div", name, NoParent);
    } else {
      h := NewHeadHandler(w, PlainHead, name, atts);
    }
    child := Some(h);
  }

  method TextNewTag(w: Writer, node: TextNode, name: string, atts: Attrs) returns (child: Option<Handler>)
    modifies w`events, w`lastId
    ensures Created(w, old(w.events), old(w.lastId), Some(TextChild(node, name, atts, old(w.lastId), w.resolve)), child)
  {
    var h;
    match TextChildOf(name) {
      case AnchorChild =>
        h := NewAnchorHandler(w, node, atts);
      case ImageChild =>
        h := NewImageHandler(w, atts);
      case PlainChild(tag, style) =>
        h := NewTextHandler(w, atts, tag, style, Parent(node));
    }
    child := Some(h);
  }

  /** The virtual call `NewTag` on the handler on top of the stack. */
  method DispatchNewTag(w: Writer, h: Handler, name: string, atts: Attrs) returns (parent: Handler, child: Option<Handler>)
    modifies w`events, w`lastId
    ensures var r := NewTag(h, name, atts, old(w.lastId), w.resolve);
      parent == r.parent && Created(w, old(w.events), old(w.lastId), r.child, child)
  {
    match h {
      case RootHandler =>
        parent := h;
        child := RootNewTag(w, name, atts);
      case HeadHandler(PlainHead, _) =>
        parent := HeadHandler(PlainHead, false);
        child := HeadNewTag(w, name, atts);
      case HeadHandler(DescrHead, _) =>
        parent := h;
        child := DescrNewTag(w, name, atts);
      case HeadHandler(TitleHead, _) =>
        parent := h;
        child := TitleNewTag(w, name, atts);
      case TextHandler(node) =>
        parent := h;
        child := TextNewTag(w, node, name, atts);
      case BinaryHandler(_, _) =>
        // BaseHandler::NewTag: no handler, the subtree is skipped
        parent := h;
        child := None;
    }
  }

  /** EndTag of every handler kind. */
  method CloseHandler(w: Writer, h: Handler, decode: string -> seq<bv8>)
    modifies w`events, w`assets
    ensures var c := EndTag(h, decode); w.events == old(w.events) + c.events && w.assets == old(w.assets) + c.assets
  {
    match h
    case RootHandler =>
      w.WriteEndElement();
      w.WriteEndElement();
      w.WriteEndDocument();
    case HeadHandler(_, empty) =>
      if empty {
        w.WriteCharacters(" ");
      }
      w.WriteEndElement();
    case TextHandler(node) =>
      if node.tag == "" {
        return;
      }
      if node.tag == "div" {
        w.WriteCharacters(" ");
      }
      w.WriteEndElement();
    case BinaryHandler(file, text) =>
      if file != "" {
        w.AddFile(file, decode(text));
      }
  }

  // ---------------------------------------------------------------------------
  //  The driver
  // ---------------------------------------------------------------------------

  function FrameOpens(f: Frame): nat {
    if f.Open? then Opens(f.handler) else 0
  }

  /** Output elements the open source elements keep open. */
  function OpenCount(stack: seq<Frame>): nat {
    if stack == [] then 0 else OpenCount(stack[..|stack| - 1]) + FrameOpens(stack[|stack| - 1])
  }

  lemma OpenCountPush(stack: seq<Frame>, f: Frame)
    ensures OpenCount(stack + [f]) == OpenCount(stack) + FrameOpens(f)
  {
    assert (stack + [f])[..|stack|] == stack;
  }

  /** Every text handler's parent link is the text handler just below it. */
  ghost predicate Linked(stack: seq<Frame>) {
    forall i :: 0 <= i < |stack| && stack[i].Open? && stack[i].handler.TextHandler? && stack[i].handler.node.parent.Parent?
      ==> 0 < i && stack[i - 1] == Open(TextHandler(stack[i].handler.node.parent.node))
  }

  /** The root handler is exactly the bottom frame, and parent links follow the stack. */
  ghost predicate Shaped(stack: seq<Frame>) {
    && (forall i :: 0 <= i < |stack| ==> (stack[i] == Open(RootHandler) <==> i == 0))
    && Linked(stack)
  }

  /** Replacing the top handler `h` by `parent` and pushing `frame` keeps the
      stack's shape, provided the parent stands where `h` stood (root for root,
      the same text handler) and the new frame is a non-root child linked to
      the parent; the open count grows by what the new frame keeps open. */
  lemma PushKeepsShape(below: seq<Frame>, h: Handler, parent: Handler, frame: Frame)
    requires Shaped(below + [Open(h)])
    requires Opens(parent) == Opens(h)
    requires (parent == RootHandler <==> h == RootHandler) && (parent.TextHandler? ==> parent == h)
    requires frame != Open(RootHandler)
    requires frame.Open? && frame.handler.TextHandler? && frame.handler.node.parent.Parent? ==>
               parent == TextHandler(frame.handler.node.parent.node)
    ensures Shaped(below + [Open(parent), frame])
    ensures OpenCount(below + [Open(parent), frame]) == OpenCount(below + [Open(h)]) + FrameOpens(frame)
  {
    var old_ := below + [Open(h)];
    var s := below + [Open(parent), frame];
    OpenCountPush(below, Open(h));
    OpenCountPush(below, Open(parent));
    OpenCountPush(below + [Open(parent)], frame);
    assert s == below + [Open(parent)] + [frame];
    assert old_[|below|] == Open(h);
    forall i | 0 <= i < |s|
      ensures s[i] == Open(RootHandler) <==> i == 0
    {
      if i < |below| {
        assert s[i] == old_[i];
      }
    }
    forall i | 0 <= i < |s| && s[i].Open? && s[i].handler.TextHandler? && s[i].handler.node.parent.Parent?
      ensures 0 < i && s[i - 1] == Open(TextHandler(s[i].handler.node.parent.node))
    {
      if i <= |below| {
        assert s[i] == old_[i];
        if 0 < i {
          assert s[i - 1] == old_[i - 1];
        }
      }
    }
  }

  class ReadHandler {
    const writer: Writer
    /** The decoding of a binary element's text (base64 in the source). */
    const decode: string -> seq<bv8>
    /** The open source elements, innermost last. */
    var stack: seq<Frame>
    var error: string

    /** The output is balanced against the open elements, the root handler is
        exactly the bottom of the stack, and parent links follow the stack. */
    ghost predicate Valid()
      reads this, writer
    {
      && Depth(writer.events) == OpenCount(stack)
      && Shaped(stack)
    }

    constructor (resolve: string -> string, decode: string -> seq<bv8>)
      ensures Valid() && fresh(writer)
      ensures writer.events == [] && writer.lastId == 0 && writer.assets == [] && writer.resolve == resolve
      ensures this.decode == decode && stack == [] && error == ""
    {
      writer := new Writer(resolve);
      this.decode := decode;
      stack := [];
      error := "";
    }

    /** The document root: only `fictionbook` is accepted, and then the root
        handler opens the html/body wrapper. */
    method CreateRoot(name: string) returns (ok: bool)
      requires Valid() && stack == []
      modifies this`stack, this`error, writer`events
      ensures Valid()
      ensures ok <==> name == "fictionbook"
      ensures ok ==>
                stack == [Open(RootHandler)] && error == old(error)
                && writer.events == old(writer.events) + [StartDocument, Event.StartElement("html"), Event.StartElement("body")]
      ensures !ok ==> stack == [] && error == NotFb2Error && writer.events == old(writer.events)
    {
      if name == "fictionbook" {
        writer.WriteStartDocument();
        writer.WriteStartElement("html");
        writer.WriteStartElement("body");
        DepthAppend(old(writer.events), [StartDocument, Event.StartElement("html"), Event.StartElement("body")]);
        assert writer.events == old(writer.events) + [StartDocument, Event.StartElement("html"), Event.StartElement("body")];
        stack := [Open(RootHandler)];
        assert stack == [] + [Open(RootHandler)];
        OpenCountPush([], Open(RootHandler));
        assert Depth([StartDocument, Event.StartElement("html"), Event.StartElement("body")]) == 2;
        ok := true;
      } else {
        error := NotFb2Error;
        ok := false;
      }
    }

    /** A start tag. With nothing open it is the document root (CreateRoot);
        otherwise the handler on top decides, and a subtree it refuses is
        skipped. Returns false when parsing must stop. */
    method StartElement(name: string, atts: Attrs) returns (ok: bool)
      requires Valid()
      modifies this`stack, this`error, writer`events, writer`lastId
      ensures Valid()
      ensures old(stack) == [] ==> (ok <==> name == "fictionbook") && writer.lastId == old(writer.lastId)
      ensures old(stack) == [] && ok ==>
                stack == [Open(RootHandler)] && error == old(error)
                && writer.events == old(writer.events) + [StartDocument, Event.StartElement("html"), Event.StartElement("body")]
      ensures old(stack) == [] && !ok ==> stack == [] && error == NotFb2Error && writer.events == old(writer.events)
      ensures old(stack) != [] ==> ok && error == old(error)
      ensures old(stack) != [] && old(stack)[|old(stack)| - 1].Skipped? ==>
                stack == old(stack) + [Skipped] && writer.events == old(writer.events) && writer.lastId == old(writer.lastId)
      ensures old(stack) != [] && old(stack)[|old(stack)| - 1].Open? ==>
                var r := NewTag(old(stack)[|old(stack)| - 1].handler, name, atts, old(writer.lastId), writer.resolve);
                && stack == old(stack)[..|old(stack)| - 1] + [Open(r.parent), if r.child.Some? then Open(r.child.value.handler) else Skipped]
                && writer.events == old(writer.events) + (if r.child.Some? then r.child.value.events else [])
                && writer.lastId == old(writer.lastId) + (if r.child.Some? then r.child.value.ids else 0)
    {
      if stack == [] {
        ok := CreateRoot(name);
        return;
      }
      ok := true;
      var below, top := stack[..|stack| - 1], stack[|stack| - 1];
      assert stack == below + [top];
      OpenCountPush(below, top);
      if top.Skipped? {
        OpenCountPush(stack, Skipped);
        stack := stack + [Skipped];
        return;
      }
      OpenChild(below, top.handler, name, atts);
    }

    /** The handler `h` on top decides what a start tag opens: it stays (or is
        updated) below the child it creates, or the subtree is skipped. */
    method OpenChild(below: seq<Frame>, h: Handler, name: string, atts: Attrs)
      requires Valid() && stack == below + [Open(h)]
      modifies this`stack, writer`events, writer`lastId
      ensures Valid()
      ensures var r := NewTag(h, name, atts, old(writer.lastId), writer.resolve);
                && stack == below + [Open(r.parent), if r.child.Some? then Open(r.child.value.handler) else Skipped]
                && writer.events == old(writer.events) + (if r.child.Some? then r.child.value.events else [])
                && writer.lastId == old(writer.lastId) + (if r.child.Some? then r.child.value.ids else 0)
    {
      ghost var r := NewTag(h, name, atts, writer.lastId, writer.resolve);
      var parent, child := DispatchNewTag(writer, h, name, atts);
      var frame := if child.Some? then Open(child.value) else Skipped;
      NewTagBalanced(h, name, atts, old(writer.lastId), writer.resolve);
      NewTagLinksParent(h, name, atts, old(writer.lastId), writer.resolve);
      PushKeepsShape(below, h, parent, frame);
      DepthAppend(old(writer.events), if r.child.Some? then r.child.value.events else []);
      stack := below + [Open(parent), frame];
    }

    /** Character data, passed to the handler on top. */
    method Characters(text: string)
      requires Valid()
      modifies this`stack, writer`events
      ensures Valid()
      ensures old(stack) == [] || old(stack)[|old(stack)| - 1].Skipped? ==>
                stack == old(stack) && writer.events == old(writer.events)
      ensures old(stack) != [] && old(stack)[|old(stack)| - 1].Open? ==>
                var f := TxtTag(old(stack)[|old(stack)| - 1].handler, text);
                stack == old(stack)[..|old(stack)| - 1] + [Open(f.handler)] && writer.events == old(writer.events) + f.events
    {
      if stack == [] || stack[|stack| - 1].Skipped? {
        return;
      }
      var below, h := stack[..|stack| - 1], stack[|stack| - 1].handler;
      assert stack == below + [Open(h)];
      OpenCountPush(below, Open(h));
      ghost var f := TxtTag(h, text);
      var h';
      match h {
        case RootHandler =>
          // BaseHandler::TxtTag: text directly under the root is dropped
          h' := h;
        case HeadHandler(kind, _) =>
          writer.WriteCharacters(text);
          h' := HeadHandler(kind, false);
        case TextHandler(_) =>
          writer.WriteCharacters(text);
          h' := h;
        case BinaryHandler(file, buffer) =>
          h' := BinaryHandler(file, buffer + text);
      }
      stack := below + [Open(h')];
      OpenCountPush(below, Open(h'));
      DepthAppend(old(writer.events), f.events);
    }

    /** An end tag: the handler on top writes its closing markup and is dropped.
        Once the root is closed the document is complete and balanced. */
    method EndElement(name: string)
      requires Valid() && stack != []
      modifies this`stack, writer`events, writer`assets
      ensures Valid()
      ensures stack == old(stack)[..|old(stack)| - 1]
      ensures old(stack)[|old(stack)| - 1].Skipped? ==>
                writer.events == old(writer.events) && writer.assets == old(writer.assets)
      ensures old(stack)[|old(stack)| - 1].Open? ==>
                var c := EndTag(old(stack)[|old(stack)| - 1].handler, decode);
                writer.events == old(writer.events) + c.events && writer.assets == old(writer.assets) + c.assets
      ensures stack == [] ==> Depth(writer.events) == 0 && writer.events[|writer.events| - 1] == EndDocument
    {
      var below, top := stack[..|stack| - 1], stack[|stack| - 1];
      assert stack == below + [top];
      OpenCountPush(below, top);
      if top.Open? {
        CloseHandler(writer, top.handler, decode);
        DepthAppend(old(writer.events), EndTag(top.handler, decode).events);
      }
      stack := below;
    }
  }
}
