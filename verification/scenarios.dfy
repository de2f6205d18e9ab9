/**
 * Concrete traces of the transitions: a feed is added and refreshed, a URL is
 * submitted twice, one feed of a pass fails while another succeeds, and two
 * behaviours of the code that a per-feed design would not have.
 */
module Scenarios {
  import opened Wrappers
  import opened Document
  import opened AppState
  import opened Merge
  import opened Application

  const Url := "https://example.com/feed.xml"

  function Node(link: string): ItemNode {
    ItemNode(Some("title"), Some("text"), Some(link))
  }

  function It(link: string): Item {
    Item("title", "text", link)
  }

  function FeedDoc(links: seq<string>): Doc {
    Doc(false, Some("Example"), Some("Desc"), seq(|links|, i requires 0 <= i < |links| => Node(links[i])))
  }

  /** The state after `Url`, with items `link1` and `link2`, was submitted to a fresh reader. */
  const Added := State(Url, "", [Feed(1, Url, "Example", "Desc")],
                       [Post(1, "link1", "title", "text", 2), Post(1, "link2", "title", "text", 3)], 3)

  /** Submitting a feed with items `link1` and `link2` stores one feed and two posts. */
  lemma AddExample()
    ensures Submit(Initial, Url, None).currentId == Some(1)
    ensures InitialAdd(Submit(Initial, Url, None).state, 1, Url, Fetched(FeedDoc(["link1", "link2"]))) == Added
  {
    var sub := Submit(Initial, Url, None);
    assert !HasFeed(Initial.feeds, Url);
    var doc := FeedDoc(["link1", "link2"]);
    assert doc.items == [Node("link1"), Node("link2")];
    assert ReadItems(doc.items) == [It("link1"), It("link2")] by {
      assert doc.items[1..] == [Node("link2")];
      assert doc.items[1..][1..] == [];
    }
  }

  /** The items of the refreshed document. */
  lemma RefreshBatch()
    ensures Batches([Fetched(FeedDoc(["link1", "link2", "link3"]))]) == [It("link1"), It("link2"), It("link3")]
  {
    var doc3 := FeedDoc(["link1", "link2", "link3"]);
    var outs := [Fetched(doc3)];
    assert doc3.items == [Node("link1"), Node("link2"), Node("link3")];
    assert ReadItems(doc3.items) == [It("link1"), It("link2"), It("link3")] by {
      assert doc3.items[1..] == [Node("link2"), Node("link3")];
      assert doc3.items[1..][1..] == [Node("link3")];
      assert doc3.items[1..][1..][1..] == [];
    }
    assert outs[1..] == [];
  }

  /** Of the refreshed items, only `link3` is new. */
  lemma RefreshNewItems()
    ensures NewItems(Added.posts, [It("link1"), It("link2"), It("link3")]) == [It("link3")]
  {
    var items3 := [It("link1"), It("link2"), It("link3")];
    var posts := Added.posts;
    assert HasLink(posts, "link1") by { assert posts[0].link == "link1"; }
    assert HasLink(posts, "link2") by { assert posts[1].link == "link2"; }
    assert !HasLink(posts, "link3");
    assert items3[..2][..1][..0] == [];
    assert items3[..2][..1] == [It("link1")];
    assert items3[..2] == [It("link1"), It("link2")];
    assert !FirstNew(posts, items3[..2][..1], 0);
    assert NewItems(posts, items3[..2][..1]) == [];
    assert !FirstNew(posts, items3[..2], 1);
    assert NewItems(posts, items3[..2]) == [];
    assert FirstNew(posts, items3, 2);
  }

  /**
   * A refresh that now also sees `link3` appends exactly one post, for `link3`,
   * and leaves the posts for `link1` and `link2` untouched.
   */
  lemma RefreshExample()
    ensures RefreshPass(Added, 1, [Fetched(FeedDoc(["link1", "link2", "link3"]))])
         == Added.(posts := Added.posts + [Post(1, "link3", "title", "text", 4)], idCounter := 4)
  {
    RefreshBatch();
    RefreshNewItems();
    RefreshPassAppendsNewItems(Added, 1, [Fetched(FeedDoc(["link1", "link2", "link3"]))]);
    assert Stamp([It("link3")], 1, 4) == [Post(1, "link3", "title", "text", 4)];
  }

  /** Submitting a stored URL again shows `notOneOf`, even when validation also fails, and stores nothing. */
  lemma DuplicateSubmit(s: State, invalid: Option<string>)
    requires |s.feeds| > 0
    ensures
      var r := Submit(s, s.feeds[0].link, invalid);
      r.state.error == "notOneOf" && r.currentId == None && r.state.feeds == s.feeds && r.state.posts == s.posts
  {
    assert HasFeed(s.feeds, s.feeds[0].link);
  }

  /** A document with the single item `x` yields one item, new to an empty post list. */
  lemma SingleItem(x: string)
    ensures ReadItems(FeedDoc([x]).items) == [It(x)]
    ensures NewItems([], [It(x)]) == [It(x)]
    ensures Stamp([It(x)], 2, 3) == [Post(2, x, "title", "text", 3)]
  {
    assert FeedDoc([x]).items == [Node(x)];
    assert [Node(x)][1..] == [];
    assert FirstNew([], [It(x)], 0);
    assert [It(x)][..0] == [];
  }

  /** A pass in which the first feed's fetch is rejected still merges the second feed's new item. */
  lemma OneFeedFailsOtherSucceeds()
    ensures
      var s := State("", "", [Feed(1, "a", "A", "A"), Feed(2, "b", "B", "B")], [], 2);
      var r := RefreshPass(s, 2, [Rejected("timeout"), Fetched(FeedDoc(["x"]))]);
      r.posts == [Post(2, "x", "title", "text", 3)] && r.feeds == s.feeds && r.error == ""
  {
    var s := State("", "", [Feed(1, "a", "A", "A"), Feed(2, "b", "B", "B")], [], 2);
    var outs := [Rejected("timeout"), Fetched(FeedDoc(["x"]))];
    SingleItem("x");
    RefreshPassAppendsNewItems(s, 2, outs);
    assert Batches(outs) == [It("x")] by {
      assert outs[1..] == [Fetched(FeedDoc(["x"]))];
      assert outs[1..][1..] == [];
    }
  }

  /**
   * Two submits of the same URL whose fetches have not settled yet are both
   * accepted, and both feeds are then stored: the duplicate check only sees
   * feeds already stored.
   */
  lemma RacingSubmitsStoreDuplicateFeeds()
    ensures
      var a := Submit(Initial, Url, None);
      var b := Submit(a.state, Url, None);
      var doc := Doc(false, Some("Example"), Some("Desc"), []);
      var t := InitialAdd(InitialAdd(b.state, 1, Url, Fetched(doc)), 2, Url, Fetched(doc));
      && a.currentId == Some(1) && b.currentId == Some(2)
      && |t.feeds| == 2 && t.feeds[0].link == t.feeds[1].link
  {
  }

  /** The first fetch of the second submission is rejected with a message. */
  lemma FailedAdd()
    ensures
      var s := State("", "", [Feed(1, "a", "A", "A")], [], 1);
      var sub := Submit(s, Url, None);
      && sub.currentId == Some(2)
      && InitialAdd(sub.state, 2, Url, Rejected("Network Error"))
         == State(Url, "networkError", s.feeds, [], 2)
  {
    var s := State("", "", [Feed(1, "a", "A", "A")], [], 1);
    assert !HasFeed(s.feeds, Url);
  }

  /**
   * The timer of a submission whose first fetch failed still refreshes the
   * other feeds, and the posts it appends carry that submission's id, which
   * no stored feed has.
   */
  lemma FailedAddStillTagsPosts()
    ensures
      var failed := State(Url, "networkError", [Feed(1, "a", "A", "A")], [], 2);
      var r := RefreshPass(failed, 2, [Fetched(FeedDoc(["x"]))]);
      && r.posts == [Post(2, "x", "title", "text", 3)]
      && forall i :: 0 <= i < |r.feeds| ==> r.feeds[i].feedId != 2
  {
    var failed := State(Url, "networkError", [Feed(1, "a", "A", "A")], [], 2);
    var outs := [Fetched(FeedDoc(["x"]))];
    SingleItem("x");
    assert Batches(outs) == [It("x")] by { assert outs[1..] == []; }
    RefreshPassAppendsNewItems(failed, 2, outs);
    var r := RefreshPass(failed, 2, outs);
    assert r.feeds == failed.feeds;
  }

  /** The first add stores every item, even one whose link is already posted. */
  lemma InitialAddDoesNotDedup(s: State, currentId: nat, value: string)
    requires |s.posts| > 0
    ensures
      var doc := FeedDoc([s.posts[0].link]);
      |InitialAdd(s, currentId, value, Fetched(doc)).posts| == |s.posts| + 1
  {
    var doc := FeedDoc([s.posts[0].link]);
    assert AllComplete(doc.items);
    ReadItemsAll(doc.items);
  }
}
