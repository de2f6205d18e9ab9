/**
 * The refresh merge inside `timeout` in `src/application.js` (lines 105-119):
 * the items of one refreshed document are visited in order, and an item is
 * appended as a post only when no post of the WHOLE list, whatever its feed,
 * already has its link. Each appended post takes the next counter id and the
 * id of the submission whose timer runs the refresh.
 */
module Merge {
  import opened Document
  import opened AppState

  /** Some item of the batch has this link. */
  predicate ItemHasLink(items: seq<Item>, link: string) {
    exists i :: 0 <= i < |items| && items[i].link == link
  }

  /**
   * One visit of the map callback for a complete item: afterwards the item's
   * link is posted, and at most one post, with a fresh id, was appended.
   */
  function MergeOne(s: State, feedId: nat, x: Item): (r: State)
    ensures r.feeds == s.feeds && r.error == s.error && r.website == s.website
    ensures |s.posts| <= |r.posts| <= |s.posts| + 1 && r.posts[..|s.posts|] == s.posts
    ensures r.idCounter == s.idCounter + (|r.posts| - |s.posts|)
    ensures HasLink(r.posts, x.link)
    ensures |r.posts| > |s.posts| ==> r.posts[|s.posts|].id > s.idCounter && r.posts[|s.posts|].feedId == feedId
  {
    if HasLink(s.posts, x.link) then s
    else s.(posts := s.posts + [Post(feedId, x.link, x.title, x.description, s.idCounter + 1)],
            idCounter := s.idCounter + 1)
  }

  /** An item batch has a link exactly when its last item or the rest has it. */
  lemma ItemHasLinkSnoc(items: seq<Item>, l: string)
    requires items != []
    ensures ItemHasLink(items, l) <==> ItemHasLink(items[..|items| - 1], l) || items[|items| - 1].link == l
  {
    var pre := items[..|items| - 1];
    if ItemHasLink(items, l) {
      var i :| 0 <= i < |items| && items[i].link == l;
      if i < |pre| { assert pre[i] == items[i]; }
    }
    if ItemHasLink(pre, l) {
      var i :| 0 <= i < |pre| && pre[i].link == l;
      assert items[i] == pre[i];
    }
  }

  /** A post list has a link exactly when its last post or the rest has it. */
  lemma HasLinkSnoc(posts: seq<Post>, p: Post, l: string)
    ensures HasLink(posts + [p], l) <==> HasLink(posts, l) || p.link == l
  {
    if HasLink(posts, l) {
      var i :| 0 <= i < |posts| && posts[i].link == l;
      assert (posts + [p])[i] == posts[i];
    }
    if p.link == l {
      assert (posts + [p])[|posts|] == p;
    }
  }

  /**
   * Visits the items in order. The list the next item is checked against
   * includes the posts appended for earlier items of the same batch, so a link
   * repeated inside the batch is added once, at its first occurrence.
   */
  function MergeItems(s: State, feedId: nat, items: seq<Item>): (r: State)
    decreases |items|
    ensures r.website == s.website && r.error == s.error && r.feeds == s.feeds
    ensures |s.posts| <= |r.posts| <= |s.posts| + |items|
    ensures r.posts[..|s.posts|] == s.posts
    ensures r.idCounter == s.idCounter + (|r.posts| - |s.posts|)
    ensures forall k :: |s.posts| <= k < |r.posts| ==>
      r.posts[k].feedId == feedId && r.posts[k].id == s.idCounter + 1 + (k - |s.posts|)
  {
    if items == [] then s
    else
      var p := MergeItems(s, feedId, items[..|items| - 1]);
      var r := MergeOne(p, feedId, items[|items| - 1]);
      assert r.posts[..|p.posts|] == p.posts;
      r
  }

  /** After a merge, a link is posted exactly when it was posted before or is the link of an item of the batch. */
  lemma {:induction false} MergeLinks(s: State, feedId: nat, items: seq<Item>, l: string)
    ensures HasLink(MergeItems(s, feedId, items).posts, l) <==> HasLink(s.posts, l) || ItemHasLink(items, l)
  {
    if items != [] {
      var pre := items[..|items| - 1];
      var x := items[|items| - 1];
      var p := MergeItems(s, feedId, pre);
      MergeLinks(s, feedId, pre, l);
      ItemHasLinkSnoc(items, l);
      if !HasLink(p.posts, x.link) {
        HasLinkSnoc(p.posts, Post(feedId, x.link, x.title, x.description, p.idCounter + 1), l);
      } else if x.link == l {
        assert HasLink(p.posts, l);
      }
    }
  }

  /** `MergeLinks` for every link at once. */
  lemma MergeLinksAll(s: State, feedId: nat, items: seq<Item>)
    ensures forall l :: HasLink(MergeItems(s, feedId, items).posts, l) <==> HasLink(s.posts, l) || ItemHasLink(items, l)
  {
    forall l ensures HasLink(MergeItems(s, feedId, items).posts, l) <==> HasLink(s.posts, l) || ItemHasLink(items, l) {
      MergeLinks(s, feedId, items, l);
    }
  }

  /**
   * Every post a merge appends carries the link of an item of the batch, and
   * no post before it, old or appended earlier in the same pass, had that link.
   */
  lemma {:induction false} MergeAppendsUnseen(s: State, feedId: nat, items: seq<Item>, k: int)
    requires |s.posts| <= k < |MergeItems(s, feedId, items).posts|
    ensures ItemHasLink(items, MergeItems(s, feedId, items).posts[k].link)
    ensures !HasLink(MergeItems(s, feedId, items).posts[..k], MergeItems(s, feedId, items).posts[k].link)
  {
    var pre := items[..|items| - 1];
    var x := items[|items| - 1];
    var p := MergeItems(s, feedId, pre);
    var r := MergeItems(s, feedId, items);
    ItemHasLinkSnoc(items, r.posts[k].link);
    if k < |p.posts| {
      MergeAppendsUnseen(s, feedId, pre, k);
      assert r.posts[..k] == p.posts[..k];
    } else {
      assert r.posts[..k] == p.posts;
    }
  }

  /** A merge keeps post links pairwise distinct. */
  lemma MergeKeepsLinksDistinct(s: State, feedId: nat, items: seq<Item>)
    ensures LinksDistinct(s.posts) ==> LinksDistinct(MergeItems(s, feedId, items).posts)
  {
    if !LinksDistinct(s.posts) { return; }
    var r := MergeItems(s, feedId, items);
    forall i, j | 0 <= i < j < |r.posts| ensures r.posts[i].link != r.posts[j].link {
      if j >= |s.posts| {
        MergeAppendsUnseen(s, feedId, items, j);
        assert r.posts[..j][i] == r.posts[i];
      } else {
        assert r.posts[i] == s.posts[i] && r.posts[j] == s.posts[j];
      }
    }
  }

  /**
   * The independent description of what a merge appends: the item at index `i`
   * is new when no earlier post and no earlier item of the batch has its link.
   */
  predicate FirstNew(known: seq<Post>, items: seq<Item>, i: nat)
    requires i < |items|
  {
    !HasLink(known, items[i].link) && forall j :: 0 <= j < i ==> items[j].link != items[i].link
  }

  /** The new items of a batch, in batch order: the items that are `FirstNew`. */
  function NewItems(known: seq<Post>, items: seq<Item>): (r: seq<Item>)
    decreases |items|
  {
    if items == [] then []
    else NewItems(known, items[..|items| - 1])
         + (if FirstNew(known, items, |items| - 1) then [items[|items| - 1]] else [])
  }

  /** The last item of a batch is new exactly when merging the items before it left its link unposted. */
  lemma LastIsNewIffUnposted(s: State, feedId: nat, items: seq<Item>)
    requires items != []
    ensures FirstNew(s.posts, items, |items| - 1)
        <==> !HasLink(MergeItems(s, feedId, items[..|items| - 1]).posts, items[|items| - 1].link)
  {
    var pre := items[..|items| - 1];
    var x := items[|items| - 1];
    MergeLinks(s, feedId, pre, x.link);
    if ItemHasLink(pre, x.link) {
      var j :| 0 <= j < |pre| && pre[j].link == x.link;
      assert items[j] == pre[j];
    }
    if exists j :: 0 <= j < |items| - 1 && items[j].link == x.link {
      var j :| 0 <= j < |items| - 1 && items[j].link == x.link;
      assert pre[j] == items[j];
    }
  }

  /** One merge step on a state that already holds the stamped posts of `n`. */
  lemma MergeOneAfterStamp(s: State, feedId: nat, n: seq<Item>, x: Item, p: State)
    requires p == s.(posts := s.posts + Stamp(n, feedId, s.idCounter + 1), idCounter := s.idCounter + |n|)
    ensures HasLink(p.posts, x.link) ==> MergeOne(p, feedId, x) == p
    ensures !HasLink(p.posts, x.link) ==>
      MergeOne(p, feedId, x)
      == s.(posts := s.posts + Stamp(n + [x], feedId, s.idCounter + 1), idCounter := s.idCounter + |n + [x]|)
  {
    StampSnoc(n, x, feedId, s.idCounter + 1);
  }

  /** The inductive step of `MergeIsNewItems`: merging the last item extends the stamped new items by it exactly when it is new. */
  lemma MergeLastStep(s: State, feedId: nat, items: seq<Item>, m: seq<Item>)
    requires items != []
    requires var n := NewItems(s.posts, items[..|items| - 1]);
      MergeItems(s, feedId, items[..|items| - 1])
      == s.(posts := s.posts + Stamp(n, feedId, s.idCounter + 1), idCounter := s.idCounter + |n|)
    requires m == NewItems(s.posts, items)
    ensures MergeItems(s, feedId, items)
         == s.(posts := s.posts + Stamp(m, feedId, s.idCounter + 1), idCounter := s.idCounter + |m|)
  {
    var pre := items[..|items| - 1];
    var x := items[|items| - 1];
    var n := NewItems(s.posts, pre);
    var p := MergeItems(s, feedId, pre);
    assert MergeItems(s, feedId, items) == MergeOne(p, feedId, x);
    LastIsNewIffUnposted(s, feedId, items);
    MergeOneAfterStamp(s, feedId, n, x, p);
    if FirstNew(s.posts, items, |items| - 1) {
      assert m == n + [x];
    } else {
      assert m == n;
    }
  }

  /**
   * The merge appends exactly the new items of the batch, in batch order,
   * stamped with consecutive fresh ids, and advances the counter by their number.
   */
  lemma {:induction false} MergeIsNewItems(s: State, feedId: nat, items: seq<Item>)
    ensures MergeItems(s, feedId, items)
         == s.(posts := s.posts + Stamp(NewItems(s.posts, items), feedId, s.idCounter + 1),
               idCounter := s.idCounter + |NewItems(s.posts, items)|)
  {
    if items == [] {
      assert Stamp([], feedId, s.idCounter + 1) == [];
      assert s.posts + [] == s.posts;
    } else {
      MergeIsNewItems(s, feedId, items[..|items| - 1]);
      MergeLastStep(s, feedId, items, NewItems(s.posts, items));
    }
  }

  /** A batch whose every link is already posted changes nothing. */
  lemma {:induction false} MergeKnown(s: State, feedId: nat, items: seq<Item>)
    requires forall i :: 0 <= i < |items| ==> HasLink(s.posts, items[i].link)
    ensures MergeItems(s, feedId, items) == s
  {
    if items != [] {
      MergeKnown(s, feedId, items[..|items| - 1]);
    }
  }

  /** Re-merging a batch that was just merged adds nothing: polling an unchanged feed is idempotent. */
  lemma MergeIdempotent(s: State, feedId: nat, items: seq<Item>)
    ensures MergeItems(MergeItems(s, feedId, items), feedId, items) == MergeItems(s, feedId, items)
  {
    var r := MergeItems(s, feedId, items);
    forall i | 0 <= i < |items| ensures HasLink(r.posts, items[i].link) {
      MergeLinks(s, feedId, items, items[i].link);
      assert ItemHasLink(items, items[i].link);
    }
    MergeKnown(r, feedId, items);
  }

  /** Merging two batches one after the other is merging their concatenation. */
  lemma {:induction false} MergeAppend(s: State, feedId: nat, a: seq<Item>, b: seq<Item>)
    ensures MergeItems(MergeItems(s, feedId, a), feedId, b) == MergeItems(s, feedId, a + b)
  {
    if b == [] {
      assert a + b == a;
    } else {
      var b' := b[..|b| - 1];
      MergeAppend(s, feedId, a, b');
      assert (a + b)[..|a + b| - 1] == a + b';
      assert (a + b)[|a + b| - 1] == b[|b| - 1];
    }
  }
}
