/**
 * Invariants of the reader's state that every transition keeps: the ids drawn
 * from the `uniqueId` counter (feed ids and post ids alike) are pairwise
 * distinct and already issued, and every post refers to an issued submission id.
 */
module Invariants {
  import opened Wrappers
  import opened Document
  import opened AppState
  import opened Merge
  import opened Application

  /** No two feeds have the same id. */
  predicate FeedIdsDistinct(feeds: seq<Feed>) {
    forall i, j :: 0 <= i < j < |feeds| ==> feeds[i].feedId != feeds[j].feedId
  }

  /** No two posts have the same id. */
  predicate PostIdsDistinct(posts: seq<Post>) {
    forall i, j :: 0 <= i < j < |posts| ==> posts[i].id != posts[j].id
  }

  /** No feed id is also a post id. */
  predicate Disjoint(feeds: seq<Feed>, posts: seq<Post>) {
    forall i, k :: 0 <= i < |feeds| && 0 <= k < |posts| ==> feeds[i].feedId != posts[k].id
  }

  /** Every feed id was issued by a counter now at `counter`. */
  predicate FeedIdsIssued(feeds: seq<Feed>, counter: nat) {
    forall i :: 0 <= i < |feeds| ==> 1 <= feeds[i].feedId <= counter
  }

  /** Every post id, and the submission id every post refers to, was issued by a counter now at `counter`. */
  predicate PostIdsIssued(posts: seq<Post>, counter: nat) {
    forall k :: 0 <= k < |posts| ==> 1 <= posts[k].id <= counter && 1 <= posts[k].feedId <= counter
  }

  /** The id invariant: feed and post ids pairwise distinct, and every id held or referred to already issued. */
  predicate Inv(s: State) {
    && FeedIdsDistinct(s.feeds) && PostIdsDistinct(s.posts) && Disjoint(s.feeds, s.posts)
    && FeedIdsIssued(s.feeds, s.idCounter) && PostIdsIssued(s.posts, s.idCounter)
  }

  /** An id no feed and no post holds yet. */
  predicate Unused(s: State, id: nat) {
    (forall i :: 0 <= i < |s.feeds| ==> s.feeds[i].feedId != id)
    && (forall k :: 0 <= k < |s.posts| ==> s.posts[k].id != id)
  }

  /** The reader starts with the invariant established. */
  lemma InitialInv()
    ensures Inv(Initial)
  {
  }

  /** The input handler only touches the error key, so it keeps the invariant. */
  lemma OnInputChangeKeepsInv(s: State, value: string)
    requires Inv(s)
    ensures Inv(OnInputChange(s, value))
  {
  }

  /**
   * A submit keeps the invariant, and the id it allocates is the counter's new
   * value, held by no feed or post.
   */
  lemma SubmitKeepsInv(s: State, value: string, invalid: Option<string>)
    requires Inv(s)
    ensures Inv(Submit(s, value, invalid).state)
    ensures Submit(s, value, invalid).currentId.Some? ==>
      var id := Submit(s, value, invalid).currentId.value;
      1 <= id <= Submit(s, value, invalid).state.idCounter && Unused(Submit(s, value, invalid).state, id)
  {
  }

  /** Appending the stamped posts of a batch keeps the ids distinct and issued. */
  lemma AppendStamped(s: State, items: seq<Item>, feedId: nat)
    requires Inv(s) && 1 <= feedId <= s.idCounter
    ensures Inv(s.(posts := s.posts + Stamp(items, feedId, s.idCounter + 1), idCounter := s.idCounter + |items|))
  {
    var appended := Stamp(items, feedId, s.idCounter + 1);
    var ps := s.posts + appended;
    var n := |s.posts|;
    assert forall k :: 0 <= k < n ==> ps[k] == s.posts[k];
    assert forall k :: n <= k < |ps| ==> ps[k] == appended[k - n];
  }

  /** Storing a feed whose id is issued and unused keeps the invariant. */
  lemma AppendFeed(s: State, f: Feed)
    requires Inv(s) && 1 <= f.feedId <= s.idCounter && Unused(s, f.feedId)
    ensures Inv(s.(feeds := s.feeds + [f]))
  {
    var fs := s.feeds + [f];
    assert forall i :: 0 <= i < |s.feeds| ==> fs[i] == s.feeds[i];
    assert fs[|s.feeds|] == f;
  }

  /**
   * Settling the first fetch keeps the invariant, provided the submission id
   * was issued and is held by no feed or post, as `SubmitKeepsInv` guarantees.
   */
  lemma InitialAddKeepsInv(s: State, currentId: nat, value: string, outcome: FetchOutcome)
    requires Inv(s) && 1 <= currentId <= s.idCounter && Unused(s, currentId)
    ensures Inv(InitialAdd(s, currentId, value, outcome))
  {
    if outcome.Fetched? && Readable(outcome.doc) {
      StoredFeedKeepsInv(s, currentId, value, outcome.doc);
    }
  }

  /** The success case of `InitialAddKeepsInv`. */
  lemma StoredFeedKeepsInv(s: State, currentId: nat, value: string, doc: Doc)
    requires Inv(s) && 1 <= currentId <= s.idCounter && Unused(s, currentId)
    requires Readable(doc)
    ensures Inv(InitialAdd(s, currentId, value, Fetched(doc)))
  {
    var f := Feed(currentId, value, doc.title.value, doc.description.value);
    var items := ReadItems(doc.items);
    var s1 := s.(feeds := s.feeds + [f]);
    assert InitialAdd(s, currentId, value, Fetched(doc))
        == s1.(posts := s1.posts + Stamp(items, currentId, s1.idCounter + 1), idCounter := s1.idCounter + |items|);
    AppendFeed(s, f);
    AppendStamped(s1, items, currentId);
  }

  /** Appending one post with the next id keeps the invariant. */
  lemma MergeOneKeepsInv(s: State, feedId: nat, x: Item)
    requires Inv(s) && 1 <= feedId <= s.idCounter
    ensures Inv(MergeOne(s, feedId, x))
  {
    assert MergeOne(s, feedId, x) == MergeItems(s, feedId, [x]) by {
      assert [x][..0] == [];
    }
    AppendStamped(s, NewItems(s.posts, [x]), feedId);
    MergeIsNewItems(s, feedId, [x]);
  }

  /** A merge keeps the invariant when the submission id was issued. */
  lemma {:induction false} MergeKeepsInv(s: State, feedId: nat, items: seq<Item>)
    requires Inv(s) && 1 <= feedId <= s.idCounter
    ensures Inv(MergeItems(s, feedId, items))
    decreases |items|
  {
    if items != [] {
      MergeKeepsInv(s, feedId, items[..|items| - 1]);
      MergeOneKeepsInv(MergeItems(s, feedId, items[..|items| - 1]), feedId, items[|items| - 1]);
    }
  }

  /** A refresh pass keeps the invariant when its submission id was issued. */
  lemma RefreshPassKeepsInv(s: State, currentId: nat, outcomes: seq<FetchOutcome>)
    requires |outcomes| == |s.feeds|
    requires Inv(s) && 1 <= currentId <= s.idCounter
    ensures Inv(RefreshPass(s, currentId, outcomes))
  {
    MergeKeepsInv(s, currentId, Batches(outcomes));
  }

  /** An accepted submit followed by the settling of its fetch keeps the invariant. */
  lemma SubmitThenAddKeepsInv(s: State, value: string, outcome: FetchOutcome)
    requires Inv(s) && !HasFeed(s.feeds, value)
    ensures Submit(s, value, None).currentId.Some?
    ensures Inv(InitialAdd(Submit(s, value, None).state, Submit(s, value, None).currentId.value, value, outcome))
  {
    SubmitKeepsInv(s, value, None);
    var r := Submit(s, value, None);
    InitialAddKeepsInv(r.state, r.currentId.value, value, outcome);
  }

  /** No two feeds were submitted with the same URL. */
  predicate FeedLinksDistinct(feeds: seq<Feed>) {
    forall i, j :: 0 <= i < j < |feeds| ==> feeds[i].link != feeds[j].link
  }

  /**
   * When nothing else happens between an accepted submit and the settling of
   * its fetch, feed URLs stay distinct: the duplicate check at submit time
   * refused every stored URL.
   */
  lemma SubmitThenAddKeepsFeedLinksDistinct(s: State, value: string, invalid: Option<string>, outcome: FetchOutcome)
    requires FeedLinksDistinct(s.feeds)
    requires Submit(s, value, invalid).currentId.Some?
    ensures FeedLinksDistinct(InitialAdd(Submit(s, value, invalid).state,
              Submit(s, value, invalid).currentId.value, value, outcome).feeds)
  {
    var r := Submit(s, value, invalid);
    var t := InitialAdd(r.state, r.currentId.value, value, outcome);
    if |t.feeds| > |s.feeds| {
      forall i, j | 0 <= i < j < |t.feeds| ensures t.feeds[i].link != t.feeds[j].link {
        if j == |s.feeds| {
          assert t.feeds[i] == s.feeds[i];
          assert t.feeds[j].link == value;
        } else {
          assert t.feeds[i] == s.feeds[i] && t.feeds[j] == s.feeds[j];
        }
      }
    }
  }
}
