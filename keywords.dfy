/** The per-handler keyword tables: each maps an exact, case-sensitive tag name
    to the keyword that the handler's `NewTag` switches on. A name missing from a
    table falls through to that handler's default case. */
module Keywords {
  import opened Wrappers

  datatype RootKeyword = Style | Descr | Body | Binary
  datatype HeadKeyword = Image
  datatype DescrKeyword = Title | Document | Publish | Custom
  datatype TextKeyword =
    | Section | Anchor | Table | Image | Parag
    | Style | Strong | Emphas | Strike | Sub | Sup | Code

  const RootKeywords: map<string, RootKeyword> := map[
    "stylesheet" := RootKeyword.Style,
    "description" := RootKeyword.Descr,
    "body" := RootKeyword.Body,
    "binary" := RootKeyword.Binary]

  const HeadKeywords: map<string, HeadKeyword> := map["image" := HeadKeyword.Image]

  const DescrKeywords: map<string, DescrKeyword> := map[
    "title-info" := DescrKeyword.Title,
    "document-info" := DescrKeyword.Document,
    "publish-info" := DescrKeyword.Publish,
    "custom-info" := DescrKeyword.Custom]

  const TextKeywords: map<string, TextKeyword> := map[
    "annotation" := TextKeyword.Section,
    "author" := TextKeyword.Section,
    "cite" := TextKeyword.Section,
    "date" := TextKeyword.Section,
    "epigraph" := TextKeyword.Section,
    "poem" := TextKeyword.Section,
    "section" := TextKeyword.Section,
    "stanza" := TextKeyword.Section,
    "subtitle" := TextKeyword.Section,
    "title" := TextKeyword.Section,
    "a" := TextKeyword.Anchor,
    "table" := TextKeyword.Table,
    "image" := TextKeyword.Image,
    "empty-line" := TextKeyword.Parag,
    "p" := TextKeyword.Parag,
    "v" := TextKeyword.Parag,
    "style" := TextKeyword.Style,
    "strong" := TextKeyword.Strong,
    "emphasis" := TextKeyword.Emphas,
    "strikethrough" := TextKeyword.Strike,
    "sub" := TextKeyword.Sub,
    "sup" := TextKeyword.Sup,
    "code" := TextKeyword.Code]

  /** The section-like names: each becomes a `div` whose class is the name itself. */
  const SectionNames: set<string> :=
    {"annotation", "author", "cite", "date", "epigraph", "poem", "section", "stanza", "subtitle", "title"}

  /** The paragraph-like names: each becomes a `p` without a class. */
  const ParagNames: set<string> := {"empty-line", "p", "v"}

  /** The inline names and the output tag each becomes. */
  const InlineTags: map<string, string> := map[
    "strong" := "b", "emphasis" := "i", "strikethrough" := "s", "code" := "tt", "sub" := "sub", "sup" := "sup"]

  const InlineNames: set<string> := InlineTags.Keys

  function RootKeywordOf(name: string): (k: Option<RootKeyword>)
    ensures k.Some? <==> name in {"stylesheet", "description", "body", "binary"}
    ensures k == Some(RootKeyword.Body) <==> name == "body"
    ensures k == Some(RootKeyword.Descr) <==> name == "description"
    ensures k == Some(RootKeyword.Binary) <==> name == "binary"
  {
    if name in RootKeywords then Some(RootKeywords[name]) else None
  }

  function HeadKeywordOf(name: string): (k: Option<HeadKeyword>)
    ensures k.Some? <==> name == "image"
  {
    if name in HeadKeywords then Some(HeadKeywords[name]) else None
  }

  function DescrKeywordOf(name: string): (k: Option<DescrKeyword>)
    ensures k.Some? <==> name in {"title-info", "document-info", "publish-info", "custom-info"}
    ensures k == Some(DescrKeyword.Title) <==> name == "title-info"
  {
    if name in DescrKeywords then Some(DescrKeywords[name]) else None
  }

  function TextKeywordOf(name: string): (k: Option<TextKeyword>)
    ensures k == Some(TextKeyword.Section) <==> name in SectionNames
    ensures k == Some(TextKeyword.Parag) <==> name in ParagNames
    ensures k == Some(TextKeyword.Anchor) <==> name == "a"
    ensures k == Some(TextKeyword.Image) <==> name == "image"
    ensures k == Some(TextKeyword.Table) <==> name == "table"
    ensures k == Some(TextKeyword.Style) <==> name == "style"
    ensures k.Some? <==> (name in SectionNames || name in ParagNames || name in InlineNames
                          || name in {"a", "table", "image", "style"})
  {
    if name in TextKeywords then Some(TextKeywords[name]) else None
  }
}
