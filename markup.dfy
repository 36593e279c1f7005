/** The vocabulary shared by every handler: the XML attributes a start event carries
    and the calls the reader makes on its output stream, kept as a log of events
    instead of formatted text. */
module Markup {

  /** One attribute of a source start tag: qualified name, local name and value. */
  datatype Attr = Attr(qname: string, local: string, value: string)

  type Attrs = seq<Attr>

  /** One call on the output stream writer. */
  datatype Event =
    | StartDocument
    | StartElement(tag: string)
    | Attribute(name: string, value: string)
    | Characters(text: string)
    | EndElement
    | EndDocument

  /** The value of the first attribute whose local name is `key`, or the empty
      string when there is none. */
  function Value(atts: Attrs, key: string): string {
    if atts == [] then ""
    else if atts[0].local == key then atts[0].value
    else Value(atts[1..], key)
  }

  /** Value finds the first attribute with the key, and gives "" without one. */
  lemma {:induction false} ValueFirstMatch(atts: Attrs, key: string)
    ensures (forall i :: 0 <= i < |atts| ==> atts[i].local != key) ==> Value(atts, key) == ""
    ensures forall i ::
              (0 <= i < |atts| && atts[i].local == key && (forall j :: 0 <= j < i ==> atts[j].local != key))
              ==> Value(atts, key) == atts[i].value
  {
    if atts != [] && atts[0].local != key {
      ValueFirstMatch(atts[1..], key);
      forall i | 0 <= i < |atts| && atts[i].local == key && (forall j :: 0 <= j < i ==> atts[j].local != key)
        ensures Value(atts, key) == atts[i].value
      {
        assert atts[1..][i - 1] == atts[i];
        forall j | 0 <= j < i - 1 ensures atts[1..][j].local != key {
          assert atts[1..][j] == atts[j + 1];
        }
      }
      if forall i :: 0 <= i < |atts| ==> atts[i].local != key {
        forall i | 0 <= i < |atts[1..]| ensures atts[1..][i].local != key {
          assert atts[1..][i] == atts[i + 1];
        }
      }
    }
  }

  /** How an event changes the number of open output elements. */
  function Delta(e: Event): int {
    match e
    case StartElement(_) => 1
    case EndElement => -1
    case _ => 0
  }

  /** Open elements minus closed elements over a stretch of output. */
  function Depth(events: seq<Event>): int {
    if events == [] then 0 else Delta(events[0]) + Depth(events[1..])
  }

  lemma {:induction false} DepthAppend(a: seq<Event>, b: seq<Event>)
    ensures Depth(a + b) == Depth(a) + Depth(b)
  {
    if a == [] {
      assert a + b == b;
    } else {
      assert (a + b)[0] == a[0] && (a + b)[1..] == a[1..] + b;
      DepthAppend(a[1..], b);
    }
  }

  /** The values of all `name` attributes written in a stretch of output, in order. */
  function AttrValues(events: seq<Event>, name: string): (vs: seq<string>)
    ensures |vs| <= |events|
  {
    if events == [] then []
    else (if events[0].Attribute? && events[0].name == name then [events[0].value] else [])
         + AttrValues(events[1..], name)
  }

  lemma {:induction false} AttrValuesAppend(a: seq<Event>, b: seq<Event>, name: string)
    ensures AttrValues(a + b, name) == AttrValues(a, name) + AttrValues(b, name)
  {
    if a == [] {
      assert a + b == b;
    } else {
      assert (a + b)[0] == a[0] && (a + b)[1..] == a[1..] + b;
      AttrValuesAppend(a[1..], b, name);
    }
  }

  /** ASCII lower case; other characters are left as they are. */
  function LowerChar(c: char): char {
    if 'A' <= c <= 'Z' then (c as int - 'A' as int + 'a' as int) as char else c
  }

  function Lower(s: string): (r: string)
    ensures |r| == |s|
  {
    if s == [] then [] else [LowerChar(s[0])] + Lower(s[1..])
  }

  lemma {:induction false} LowerPointwise(s: string)
    ensures forall i :: 0 <= i < |s| ==> Lower(s)[i] == LowerChar(s[i])
  {
    if s != [] {
      LowerPointwise(s[1..]);
      forall i | 1 <= i < |s| ensures Lower(s)[i] == LowerChar(s[i]) {
        assert Lower(s)[i] == Lower(s[1..])[i - 1];
      }
    }
  }

  /** `s` equals the lower-case word `w` up to the case of its letters. */
  predicate EqualsIgnoringCase(s: string, w: string) {
    |s| == |w| && forall i :: 0 <= i < |s| ==> s[i] == w[i] || ('a' <= w[i] <= 'z' && s[i] as int == w[i] as int - 32)
  }

  /** Comparing the lower-cased value with a lower-case word is exactly a
      case-insensitive comparison. */
  lemma LowerEqualsIffIgnoringCase(s: string, w: string)
    requires forall i :: 0 <= i < |w| ==> !('A' <= w[i] <= 'Z')
    ensures Lower(s) == w <==> EqualsIgnoringCase(s, w)
  {
    LowerPointwise(s);
    if Lower(s) == w {
      forall i | 0 <= i < |s| ensures s[i] == w[i] || ('a' <= w[i] <= 'z' && s[i] as int == w[i] as int - 32) {
        assert LowerChar(s[i]) == w[i];
      }
    }
    if EqualsIgnoringCase(s, w) {
      assert forall i :: 0 <= i < |s| ==> Lower(s)[i] == w[i];
    }
  }
}
