/** The reader's output writer: the stream of markup calls, the id counter and
    the log of decoded assets handed to the host. */
module Output {
  import opened Markup
  import opened Ids

  /** A decoded binary payload handed to the host under its declared id. */
  datatype Asset = Asset(name: string, data: seq<bv8>)

  class Writer {
    /** Every call made on the stream writer, in order. */
    var events: seq<Event>
    /** The id counter; it counts the ids handed out so far. */
    var lastId: nat
    /** Every asset delivered to the host, in order. */
    var assets: seq<Asset>
    /** The host's mapping from an image name to its local path. */
    const resolve: string -> string

    constructor (resolve: string -> string)
      ensures events == [] && lastId == 0 && assets == []
      ensures this.resolve == resolve
    {
      events := [];
      lastId := 0;
      assets := [];
      this.resolve := resolve;
    }

    /** The ids handed out so far. */
    function Issued(): (ids: seq<string>)
      reads this
      ensures |ids| == lastId
    {
      IdsUpTo(lastId)
    }

    /** A fresh id: the prefix and the incremented counter. */
    method NewId() returns (id: string)
      modifies this`lastId
      ensures lastId == old(lastId) + 1
      ensures id == IdOf(lastId)
      ensures id !in old(Issued()) && Issued() == old(Issued()) + [id]
    {
      lastId := lastId + 1;
      id := IdOf(lastId);
      NextIdFresh(lastId - 1);
    }

    method WriteStartDocument()
      modifies this`events
      ensures events == old(events) + [StartDocument]
    {
      events := events + [StartDocument];
    }

    method WriteStartElement(tag: string)
      modifies this`events
      ensures events == old(events) + [StartElement(tag)]
    {
      events := events + [StartElement(tag)];
    }

    method WriteAttribute(name: string, value: string)
      modifies this`events
      ensures events == old(events) + [Attribute(name, value)]
    {
      events := events + [Attribute(name, value)];
    }

    method WriteCharacters(text: string)
      modifies this`events
      ensures events == old(events) + [Characters(text)]
    {
      events := events + [Characters(text)];
    }

    method WriteEndElement()
      modifies this`events
      ensures events == old(events) + [EndElement]
    {
      events := events + [EndElement];
    }

    method WriteEndDocument()
      modifies this`events
      ensures events == old(events) + [EndDocument]
    {
      events := events + [EndDocument];
    }

    /** The local path the host gives for an image name. */
    function GetFile(name: string): string
      reads this
    {
      resolve(name)
    }

    /** Hands a decoded asset to the host. */
    method AddFile(name: string, data: seq<bv8>)
      modifies this`assets
      ensures assets == old(assets) + [Asset(name, data)]
    {
      assets := assets + [Asset(name, data)];
    }
  }
}
