/**
 * The feed parser of `src/parsers.js`, over the abstract document. Each item
 * record takes a fresh id from the global `uniqueId` counter, so the parser
 * receives the counter and returns its new value, on failure as well: ids
 * handed out before an exception stay consumed.
 */
module Parsers {
  import opened Wrappers
  import opened Document

  /** Why a parse fails: the `parsererror` node, or a missing element (a `TypeError` in the source). */
  datatype ParseError = RssInvalid | MissingElement

  /** One item record of the parse result, with its counter id. */
  datatype ParsedItem = ParsedItem(title: string, description: string, link: string, id: nat)

  /** The parse result: the channel's title and description and its item records. */
  datatype Channel = Channel(title: string, description: string, items: seq<ParsedItem>)

  /** The outcome of a parse together with the id counter after it. */
  datatype ParseOutcome = ParseOutcome(result: Result<Channel, ParseError>, counter: nat)

  /** Gives the items ids `first`, `first + 1`, ... in order. */
  function Number(items: seq<Item>, first: nat): (r: seq<ParsedItem>)
    ensures |r| == |items|
    ensures forall i :: 0 <= i < |r| ==>
      r[i] == ParsedItem(items[i].title, items[i].description, items[i].link, first + i)
  {
    seq(|items|, i requires 0 <= i < |items| =>
      ParsedItem(items[i].title, items[i].description, items[i].link, first + i))
  }

  /**
   * Parses a document. The `parsererror` check comes first; then the first
   * `title` and `description`; then each item in order, each taking the next id.
   * A missing element anywhere fails the whole parse.
   */
  function Parse(doc: Doc, counter: nat): (r: ParseOutcome)
    ensures r.result == Failure(RssInvalid) <==> doc.parserError
    ensures doc.parserError ==> r.counter == counter
    ensures r.result.Success? <==>
      !doc.parserError && doc.title.Some? && doc.description.Some? && AllComplete(doc.items)
    ensures r.result.Success? ==>
      && r.result.value.title == doc.title.value
      && r.result.value.description == doc.description.value
      && |r.result.value.items| == |doc.items|
      && r.counter == counter + |doc.items|
      && (forall i :: 0 <= i < |doc.items| ==>
            && ReadItem(doc.items[i]) == Some(Item(r.result.value.items[i].title,
                 r.result.value.items[i].description, r.result.value.items[i].link))
            && counter < r.result.value.items[i].id <= r.counter)
    ensures r.result == Failure(MissingElement) && (doc.title.None? || doc.description.None?) ==>
      r.counter == counter
    ensures counter <= r.counter <= counter + |doc.items|
  {
    if doc.parserError then ParseOutcome(Failure(RssInvalid), counter)
    else if doc.title.None? || doc.description.None? then ParseOutcome(Failure(MissingElement), counter)
    else
      var items := ReadItems(doc.items);
      ReadItemsAll(doc.items);
      if |items| < |doc.items| then ParseOutcome(Failure(MissingElement), counter + |items|)
      else ParseOutcome(Success(Channel(doc.title.value, doc.description.value, Number(items, counter + 1))),
                        counter + |items|)
  }

  /** The ids of one parse result are strictly increasing, hence pairwise distinct. */
  lemma ParsedIdsIncreasing(doc: Doc, counter: nat, i: int, j: int)
    requires Parse(doc, counter).result.Success?
    requires 0 <= i < j < |Parse(doc, counter).result.value.items|
    ensures Parse(doc, counter).result.value.items[i].id < Parse(doc, counter).result.value.items[j].id
  {
    ReadItemsAll(doc.items);
  }

  /**
   * When an item is incomplete, the ids of the complete items before it were
   * already taken: the counter has moved by their number although nothing is returned.
   */
  lemma FailedParseConsumesIds(doc: Doc, counter: nat, k: nat)
    requires !doc.parserError && doc.title.Some? && doc.description.Some?
    requires k < |doc.items| && !Complete(doc.items[k])
    requires forall i :: 0 <= i < k ==> Complete(doc.items[i])
    ensures Parse(doc, counter) == ParseOutcome(Failure(MissingElement), counter + k)
  {
    var r := ReadItems(doc.items);
  }

  /** The document a channel would be read from: its texts and one complete element per item. */
  function Unparse(ch: Channel): Doc {
    Doc(false, Some(ch.title), Some(ch.description),
        seq(|ch.items|, i requires 0 <= i < |ch.items| =>
          ToNode(Item(ch.items[i].title, ch.items[i].description, ch.items[i].link))))
  }

  /** Parsing the document of a channel whose ids continue the counter gives back that channel. */
  lemma UnparseThenParse(ch: Channel, counter: nat)
    requires forall i :: 0 <= i < |ch.items| ==> ch.items[i].id == counter + 1 + i
    ensures Parse(Unparse(ch), counter) == ParseOutcome(Success(ch), counter + |ch.items|)
  {
    var plain := seq(|ch.items|, i requires 0 <= i < |ch.items| =>
      Item(ch.items[i].title, ch.items[i].description, ch.items[i].link));
    var doc := Unparse(ch);
    assert doc.items == seq(|plain|, i requires 0 <= i < |plain| => ToNode(plain[i]));
    ReadItemsRoundTrip(plain);
    assert ReadItems(doc.items) == plain;
    assert Number(plain, counter + 1) == ch.items;
  }

  /** A successful parse loses nothing: unparsing its result rebuilds the document. */
  lemma ParseThenUnparse(doc: Doc, counter: nat)
    requires Parse(doc, counter).result.Success?
    ensures Unparse(Parse(doc, counter).result.value) == doc
  {
    var ch := Parse(doc, counter).result.value;
    var d := Unparse(ch);
    forall i | 0 <= i < |doc.items| ensures d.items[i] == doc.items[i] {
      assert ReadItem(doc.items[i]) == Some(Item(ch.items[i].title, ch.items[i].description, ch.items[i].link));
    }
  }
}
