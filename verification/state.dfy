/**
 * The reader's state record (`state.urlForm` in `src/application.js`) and the
 * feed and post records stored in it. The global `uniqueId` counter of lodash
 * is part of the state as `idCounter`: the last id handed out, so the next
 * call returns `idCounter + 1` (the first id is 1).
 */
module AppState {
  import opened Document

  /** A stored feed: the id allocated at submission, the submitted URL, and the channel texts. */
  datatype Feed = Feed(feedId: nat, link: string, title: string, description: string)

  /** A stored post: the id of the submission that stored it, the item texts, and its own id. */
  datatype Post = Post(feedId: nat, link: string, title: string, description: string, id: nat)

  /**
   * `website` is the last submitted value and `error` the feedback key shown
   * under the form (`''` when there is none).
   */
  datatype State = State(website: string, error: string, feeds: seq<Feed>, posts: seq<Post>, idCounter: nat)

  /** The state the reader starts in. */
  const Initial := State("", "", [], [], 0)

  /** Some post in the list has this link (the filter at line 110 is non-empty). */
  predicate HasLink(posts: seq<Post>, link: string) {
    exists i :: 0 <= i < |posts| && posts[i].link == link
  }

  /** Some feed in the list was submitted with this URL (the `find` at line 85 succeeds). */
  predicate HasFeed(feeds: seq<Feed>, link: string) {
    exists i :: 0 <= i < |feeds| && feeds[i].link == link
  }

  /** No two posts share a link. */
  predicate LinksDistinct(posts: seq<Post>) {
    forall i, j :: 0 <= i < j < |posts| ==> posts[i].link != posts[j].link
  }

  /**
   * The posts built from items in order, all tagged with `feedId`, the k-th
   * taking id `first + k` as successive `uniqueId()` calls give.
   */
  function Stamp(items: seq<Item>, feedId: nat, first: nat): (r: seq<Post>)
    ensures |r| == |items|
    ensures forall k :: 0 <= k < |r| ==>
      r[k] == Post(feedId, items[k].link, items[k].title, items[k].description, first + k)
  {
    seq(|items|, k requires 0 <= k < |items| =>
      Post(feedId, items[k].link, items[k].title, items[k].description, first + k))
  }

  /** Stamping one more item appends one post whose id follows the others. */
  lemma StampSnoc(items: seq<Item>, x: Item, feedId: nat, first: nat)
    ensures Stamp(items + [x], feedId, first)
         == Stamp(items, feedId, first) + [Post(feedId, x.link, x.title, x.description, first + |items|)]
  {
    assert Stamp(items + [x], feedId, first)[..|items|] == Stamp(items, feedId, first);
  }
}
