# fb2edit reader: the FB2 to HTML transducer

fb2edit opens a FictionBook 2 (FB2) document by turning it into HTML for its
editor view. The reader gets start-tag, character and end-tag events from an XML
tokenizer. For every open source element it keeps a *handler*: Root, Head,
Descr, Title, Text, Anchor, Image or Binary.

- A handler's constructor writes the opening HTML markup.
- Its `NewTag` decides which handler takes each child, or returns none, in which
  case the child's whole subtree is skipped.
- Its `TxtTag` handles character data.
- Its `EndTag` writes the closing markup.

All output goes through one writer, `Fb2ReadWriter`. The writer has:

- an id counter, which hands out `FB2E1`, `FB2E2`, …;
- `getFile`, which resolves an image name to a local path;
- `addFile`, which delivers the decoded binary attachments.

This project models that core and proves what it writes.

- `markup.dfy` (module `Markup`)
  - The output of the stream writer as a log of events: start document, start
    element, attribute, characters, end element, end document.
  - The attributes of a source start tag.
  - Attribute lookup by local name.
  - Nesting depth of a stretch of output.
  - ASCII lower-casing.
- `ids.dfy` (module `Ids`)
  - The id format `"FB2E"` + decimal.
  - The decimal round trip, injectivity of ids, and distinctness of all issued ids.
- `keywords.dfy` (module `Keywords`)
  - The per-handler keyword tables, as map literals.
- `output.dfy` (module `Output`)
  - The writer as a class: its event log, its id counter `lastId` (the source's
    `m_id`) and the log of delivered assets.
  - `getFile` is an abstract resolver function.
- `handlers.dfy` (module `Handlers`)
  - The handlers as a datatype.
  - What each constructor, `NewTag`, `TxtTag` and `EndTag` writes, as functions.
  - The properties of those functions, as lemmas.
- `reader.dfy` (module `Reader`)
  - The imperative handler constructors, which write to the shared writer step by
    step, each proved to write exactly what the matching function says.
  - The class `ReadHandler`: the stack of open source elements, `CreateRoot`, and
    the routing of tokenizer events to the handler on top.
  - The invariant `ReadHandler` keeps across events:
    - the output stays balanced against the open elements;
    - the root handler is exactly the bottom of the stack;
    - every text handler's parent link is the text handler just below it.

A text handler's back reference `m_parent` is modelled as a copy of the parent's
node: its tag, its class and its own parent. This copy is exact. A handler's
class (`m_style`) only changes inside `TextHandler::Init`, which runs in its
constructor, before any child exists. That the copy always equals the frame
just below on the stack is part of `ReadHandler.Valid()` (through the predicate
`Reader.Shaped`): every driver method keeps `Valid()`, and `Reader.PushKeepsShape`
proves that pushing a newly created child keeps the shape.

`Fb2XmlHandler`, the driver base class, is not part of this model. Its behaviour
is stated as far as these handlers need it:

- element names reach `CreateRoot` and the handlers' `NewTag` exactly as the
  driver delivers them; this model compares them verbatim (the root must be
  `fictionbook`, in lower case, as the comparison in `CreateRoot` is written)
  and does not fix their case;
- with nothing open, a start tag goes to `CreateRoot`;
- otherwise it goes to the top handler's `NewTag`, and a null result skips the
  subtree;
- characters go to the top handler's `TxtTag`;
- an end tag calls `EndTag` and pops the handler.

Two `BaseHandler` defaults apply: `NewTag` returns null and `TxtTag` does
nothing. `Value(atts, key)` is also not part of this model. It is taken as the
value of the first attribute whose local name is `key`, or the empty string.

## Model

| member | source | states |
|---|---|---|
| Ids.DecimalRoundTrip | source/fb2read.cpp:76-79 | The decimal digits of the counter read back as the counter, so the number in an id is recoverable |
| Ids.IdOfInjective | source/fb2read.cpp:76-79 | Two ids `FB2E<n>` are equal exactly when their counters are equal |
| Ids.IdsDistinct | source/fb2read.cpp:58 | The ids handed out by one writer (counter from 1 up) are pairwise distinct |
| Ids.NextIdFresh | source/fb2read.cpp:76-79 | The next id is not among those already handed out |
| Output.Writer.NewId | source/fb2read.cpp:76-79 | The counter goes up by exactly one, the id is `FB2E` + new counter, it was not issued before, and it is appended to the issued ids |
| Output.Writer.AddFile | source/fb2read.cpp:71-74 | Delivering an asset appends exactly it to the asset log |
| Keywords.RootKeywordOf | source/fb2read.cpp:85-90 | A root keyword exists exactly for stylesheet, description, body and binary, each to its own enumerator |
| Keywords.HeadKeywordOf | source/fb2read.cpp:122-124 | The head keyword table holds only `image` |
| Keywords.DescrKeywordOf | source/fb2read.cpp:165-170 | The description keywords are exactly the four `*-info` names, and only `title-info` maps to Title |
| Keywords.TextKeywordOf | source/fb2read.cpp:213-240 | Section, Parag, Anchor, Image, Table and Style keywords each hold exactly for their names; a keyword exists exactly for the 23 listed names |
| Markup.ValueFirstMatch | source/fb2read.cpp:264 | Attribute lookup yields the first attribute with the key, and "" when none has it |
| Markup.LowerEqualsIffIgnoringCase | source/fb2read.cpp:272 | Comparing the lower-cased value with a lower-case word is exactly a case-insensitive comparison |
| Handlers.IsNotesIffChain | source/fb2read.cpp:309-313 | `isNotes` holds exactly when the handler or some ancestor along the parent chain has class "notes" |
| Handlers.TagOpenedWrites | source/fb2read.cpp:263-274 | A non-empty tag writes its start tag first, then only an id (the source id, else a fresh one for div and img) and a class when it is not empty |
| Handlers.TextInitWrites | source/fb2read.cpp:260-275 | Init writes nothing for an empty tag; otherwise the start tag, the id rule, a class exactly when the style is non-empty (the final class), no other attribute, and it consumes one id exactly when it generated one |
| Handlers.TextInitClass | source/fb2read.cpp:265-273 | The class becomes "note" iff the style is "section", an id is present and the parent is inside a notes subtree; "notes" iff the style is "body" and the lower-cased name is "notes"; otherwise it stays |
| Handlers.NotesBodyIgnoringCase | source/fb2read.cpp:272 | A body becomes the notes body exactly when its name equals "notes" ignoring case (see also line 103) |
| Handlers.SectionNoteClass | source/fb2read.cpp:309-313 | A section with an id under a text handler gets class "note" exactly when some handler in the parent chain has class "notes" (see also lines 266, 283) |
| Handlers.TextChildOf | source/fb2read.cpp:277-294 | The child-kind switch: a is an anchor, image an image, section-like names a div classed by the name, p/v/empty-line a p, inline names their mapped tag, and table, style and unknown names an empty tag |
| Handlers.TextChild | source/fb2read.cpp:277-294 | Every child of a text handler is a text handler, linked to its creator except an image, which has no parent |
| Handlers.OpenAnchorSpec | source/fb2read.cpp:319-324 | An anchor writes `a`, carries the source id if any, no class, and exactly one href, the source's verbatim |
| Handlers.StrippedRemovesHashes | source/fb2read.cpp:334 | The stripped reference does not start with '#', and the original is a run of '#' followed by it |
| Handlers.OpenImageSpec | source/fb2read.cpp:330-338 | An image always carries an id (source or fresh), exactly one src (the resolved path of the stripped href) and one alt (the stripped href), and those two come last |
| Handlers.WithSource | source/fb2read.cpp:336-337 | Appending src and alt to output that had neither gives exactly one of each and keeps the ids |
| Handlers.CopiedAttrsInert | source/fb2read.cpp:133-135 | The copied `fb2:` attributes open nothing and never carry a plain name such as class or id |
| Handlers.OpenHeadSpec | source/fb2read.cpp:126-136 | A head writes a div classed by the tag name, copies every source attribute in order under `fb2:`, and has a fresh id exactly for description and title-info (see also lines 172-176, 197-201) |
| Handlers.RootChild | source/fb2read.cpp:100-108 | Only body, description and binary get a handler, and never a root; body gets a `div` text handler with no parent, description a fresh description head, binary exactly the binary handler |
| Handlers.HeadChild | source/fb2read.cpp:138-146 | Every child of a head gets a handler; `image` gets the `img` text handler with no class and no parent, anything else a fresh plain head |
| Handlers.DescrChild | source/fb2read.cpp:178-191 | Only the four `*-info` children get a handler, a fresh head, which is a title head exactly for title-info and a plain head otherwise |
| Handlers.TitleChild | source/fb2read.cpp:203-207 | Every child of title-info gets a handler: `annotation` a `div` text handler with no parent, anything else a fresh plain head |
| Handlers.NewTag | source/fb2read.cpp:277-294 | Per handler kind: which children get a handler, the parent's new state (a plain head is no longer empty, description and title heads keep their flag), binary takes no child, and no child is ever a root (see also lines 100-108, 138-146, 178-191, 203-207) |
| Handlers.TxtTag | source/fb2read.cpp:148-152 | Text keeps nesting unchanged; a head writes it and is no longer empty, a text handler writes it, a binary appends it to its buffer, the root drops it (see also lines 296-299, 350-353) |
| Handlers.EndTag | source/fb2read.cpp:301-307 | Closing undoes exactly what opening opened; root writes exactly two end tags and EndDocument; a head writes " " iff empty and only the end tag otherwise; a text handler writes nothing iff its tag is empty, " " iff it is a div, and only the end tag for any other tag; binary writes nothing and delivers one asset iff it has an id (see also lines 110-116, 154-159, 355-360) |
| Handlers.NewTagBalanced | source/fb2read.cpp:92-360 | Every child's constructor opens exactly what its EndTag closes, and the parent stays as open as before |
| Handlers.NewTagLinksParent | source/fb2read.cpp:281-293 | A created text handler with a parent link points at exactly the text handler that created it (see also lines 251-258, 330-331) |
| Handlers.FeedBinary | source/fb2read.cpp:350-353 | Feeding chunks to a binary handler concatenates them, in order, to its buffer |
| Handlers.BinaryDelivers | source/fb2read.cpp:344-360 | A binary element writes no markup and delivers exactly one asset (its id, decode of all its text) iff it declares an id |
| Handlers.ChunkingIrrelevant | source/fb2read.cpp:350-360 | How the binary text is split into chunks does not change what is delivered |
| Handlers.HeadPlaceholder | source/fb2read.cpp:148-158 | A head writes the " " placeholder on closing exactly when it received no text |
| Handlers.HeadRunState | source/fb2read.cpp:138-152 | After any run of text and children a head keeps its kind, and it is still empty iff it was and the run held no text and, for a plain head, no child (see also lines 178-191, 203-207) |
| Handlers.HeadPlaceholderInterleaved | source/fb2read.cpp:138-158 | With text and children interleaved, a plain head writes " " iff it received neither, a description or title-info head iff it received no text (see also lines 178-191, 203-207) |
| Handlers.HeadFedStaysFull | source/fb2read.cpp:148-152 | Once a head is no longer empty, further text keeps it so (see also line 141) |
| Reader.NewTextHandler | source/fb2read.cpp:260-275 | The imperative Init writes exactly TextInit's events and consumes exactly its ids |
| Reader.WriteIdAttribute | source/fb2read.cpp:264-270 | The id branch of Init: the source id, else a fresh id for div and img, else nothing |
| Reader.NewHeadHandler | source/fb2read.cpp:126-136 | The head, description and title constructors write exactly OpenHead's events (see also lines 172-176, 197-201) |
| Reader.CopyAttributes | source/fb2read.cpp:132-135 | The copy loop appends the copied attributes of all source attributes, in order |
| Reader.NewAnchorHandler | source/fb2read.cpp:319-324 | The anchor constructor writes exactly OpenAnchor's events |
| Reader.StripHashes | source/fb2read.cpp:334 | The stripping loop computes the stripped reference |
| Reader.NewImageHandler | source/fb2read.cpp:330-338 | The image constructor writes exactly OpenImage's events and asks the host for the stripped name |
| Reader.RootNewTag | source/fb2read.cpp:100-108 | The root's NewTag creates exactly RootChild's handler and writes its events |
| Reader.HeadNewTag | source/fb2read.cpp:138-146 | The head's NewTag creates exactly HeadChild's handler |
| Reader.DescrNewTag | source/fb2read.cpp:178-191 | The description's NewTag creates exactly DescrChild's handler, or none |
| Reader.TitleNewTag | source/fb2read.cpp:203-207 | The title-info NewTag creates exactly TitleChild's handler |
| Reader.TextNewTag | source/fb2read.cpp:277-294 | The text handler's NewTag creates exactly TextChild's handler |
| Reader.DispatchNewTag | source/fb2read.cpp:100-294 | The virtual NewTag call does what NewTag says for every handler kind |
| Reader.CloseHandler | source/fb2read.cpp:301-307 | The virtual EndTag call writes exactly EndTag's events and delivers exactly its assets (see also lines 110-116, 154-159, 355-360) |
| Reader.PushKeepsShape | source/fb2read.cpp:251-258 | Pushing a created child keeps the root at the bottom and every parent link pointing at the frame below |
| Reader.ReadHandler.CreateRoot | source/fb2read.cpp:373-379 | Only the exact name "fictionbook" is accepted, opening document, html and body; any other sets the not-FB2 error and writes nothing |
| Reader.ReadHandler.StartElement | source/fb2read.cpp:373-379 | With nothing open the root is created; under a skipped element the child is skipped without output; otherwise the top handler's NewTag runs; the stack invariant is kept |
| Reader.ReadHandler.OpenChild | source/fb2read.cpp:100-294 | The top handler is replaced by its new state and the created child (or a skip marker) is pushed, and the output grows by exactly the child's events |
| Reader.ReadHandler.Characters | source/fb2read.cpp:296-299 | Text goes to the top handler as TxtTag says, and is dropped under a skipped element (see also lines 148-152, 350-353) |
| Reader.ReadHandler.EndElement | source/fb2read.cpp:110-116 | The top handler closes as EndTag says and is popped; once the root is closed the whole output is balanced and ends with EndDocument (see also lines 154-159, 301-307, 355-360) |

## Left out

- The `Fb2ReadThread` thread, its mutex-guarded abort flag and the file opening (source/fb2read.cpp:11-49) are left out: they are concurrency and I/O.
- The cross-thread calls behind `getFile` and `addFile` are not modelled. `getFile` is the abstract function `Writer.resolve`, and `addFile` appends to the writer's asset log.
- Auto-formatting and indentation of the XML stream writer are left out, because output is a log of writer calls, not text.
- The XML tokenizer (XML2) is not part of this model. Input arrives as calls of `StartElement`, `Characters` and `EndElement`.
- `QByteArray::fromBase64` is the uninterpreted function `ReadHandler.decode` of the concatenated text.
- `Markup.Lower`: `QString::toLower` is modelled for ASCII letters only, because Unicode case mapping is out of scope.
- `Output.Writer.NewId`: the counter is unbounded, so the 32-bit `int` wrap-around of `m_id` after 2^31 ids is not modelled.
- `Fb2XmlHandler`, `BaseHandler` and `Value` are not part of this model. Their behaviour is taken as stated above.
- `ReadHandler.error` is only ever set by `CreateRoot`. What the tokenizer does with the error and the false return is not modelled.
- source/fb2text.cpp and source/fb2view.cpp are not part of this model: they are GUI and thread lifecycle.
