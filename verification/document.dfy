/**
 * An abstract, already-parsed XML document. It stands in for the DOM tree that
 * `DOMParser` builds and for the `querySelector` lookups the reader performs on
 * it: each lookup either finds an element and yields its text, or finds none.
 */
module Document {
  import opened Wrappers

  /** An `item` element: the text of its first `title`, `description` and `link` children, if present. */
  datatype ItemNode = ItemNode(title: Option<string>, description: Option<string>, link: Option<string>)

  /**
   * A parsed document: whether a `parsererror` node is present, the text of the
   * first `title` and `description` elements, and the `item` elements in
   * document order.
   */
  datatype Doc = Doc(parserError: bool, title: Option<string>, description: Option<string>, items: seq<ItemNode>)

  /** The three texts read from one complete `item` element. */
  datatype Item = Item(title: string, description: string, link: string)

  /** True when all three children of the item are present. */
  predicate Complete(node: ItemNode) {
    node.title.Some? && node.description.Some? && node.link.Some?
  }

  /**
   * Reads the title, description and link of one item, in that order. A missing
   * child makes `.textContent` throw, which is modelled as `None`.
   */
  function ReadItem(node: ItemNode): (r: Option<Item>)
    ensures r.Some? <==> Complete(node)
    ensures r.Some? ==> r.value.title == node.title.value && r.value.description == node.description.value
                        && r.value.link == node.link.value
  {
    match (node.title, node.description, node.link)
    case (Some(t), Some(d), Some(l)) => Some(Item(t, d, l))
    case _ => None
  }

  /** The inverse of `ReadItem`: the item element that carries exactly these texts. */
  function ToNode(it: Item): ItemNode {
    ItemNode(Some(it.title), Some(it.description), Some(it.link))
  }

  /** True when every item element of the sequence is complete. */
  predicate AllComplete(nodes: seq<ItemNode>) {
    forall i :: 0 <= i < |nodes| ==> Complete(nodes[i])
  }

  /**
   * Reads the items one after another, as a `map`/`forEach` callback does, and
   * stops at the first incomplete one, where the callback throws: the result is
   * the longest readable prefix.
   */
  function ReadItems(nodes: seq<ItemNode>): (r: seq<Item>)
    ensures |r| <= |nodes|
    ensures forall i :: 0 <= i < |r| ==> ReadItem(nodes[i]) == Some(r[i])
    ensures |r| < |nodes| ==> !Complete(nodes[|r|])
  {
    if nodes == [] then []
    else match ReadItem(nodes[0])
      case None => []
      case Some(it) => [it] + ReadItems(nodes[1..])
  }

  /** Every item is read exactly when every item element is complete. */
  lemma ReadItemsAll(nodes: seq<ItemNode>)
    ensures |ReadItems(nodes)| == |nodes| <==> AllComplete(nodes)
  {
    var r := ReadItems(nodes);
    if |r| == |nodes| {
      forall i | 0 <= i < |nodes| ensures Complete(nodes[i]) {
        assert ReadItem(nodes[i]) == Some(r[i]);
      }
    }
  }

  /** Reading back the elements built from a sequence of items gives the same items. */
  lemma {:induction false} ReadItemsRoundTrip(items: seq<Item>)
    ensures ReadItems(seq(|items|, i requires 0 <= i < |items| => ToNode(items[i]))) == items
  {
    var nodes := seq(|items|, i requires 0 <= i < |items| => ToNode(items[i]));
    if items != [] {
      ReadItemsRoundTrip(items[1..]);
      assert nodes[1..] == seq(|items[1..]|, i requires 0 <= i < |items[1..]| => ToNode(items[1..][i]));
    }
  }
}
