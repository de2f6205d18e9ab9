/**
 * The state transitions of `src/application.js` as pure functions: the input
 * change handler, the submit decision, the handling of the first fetch of a
 * submitted feed, and one refresh pass of a submission's timer.
 */
module Application {
  import opened Wrappers
  import opened Document
  import opened AppState
  import opened Merge

  /**
   * How a fetch of a feed settled: the proxied response's content, parsed into
   * a document, or a rejection carrying the error's `message` (possibly empty).
   */
  datatype FetchOutcome = Fetched(doc: Doc) | Rejected(message: string)

  /** The state after a submit, and the `currentId` allocated when the value is accepted. */
  datatype Submission = Submission(state: State, currentId: Option<nat>)

  /** The `change` handler of the URL input: an empty value shows the `isEmpty` error. */
  function OnInputChange(s: State, value: string): (r: State)
    ensures |value| == 0 ==> r.error == "isEmpty" && r == s.(error := r.error)
    ensures |value| != 0 ==> r == s
  {
    if |value| == 0 then s.(error := "isEmpty") else s
  }

  /** Handling the same change twice leaves the state as handling it once. */
  lemma OnInputChangeIdempotent(s: State, value: string)
    ensures OnInputChange(OnInputChange(s, value), value) == OnInputChange(s, value)
  {
  }

  /**
   * The submit handler. The value is stored as `website`; a value equal to a
   * stored feed's link is refused first, then a validation failure (its message,
   * passed in as `invalid`), and otherwise the value is accepted: the error is
   * cleared and one id is drawn from the counter for the new feed.
   */
  function Submit(s: State, value: string, invalid: Option<string>): (r: Submission)
    ensures r.state.website == value && r.state.feeds == s.feeds && r.state.posts == s.posts
    ensures r.currentId.Some? <==> !HasFeed(s.feeds, value) && invalid.None?
    ensures HasFeed(s.feeds, value) ==> r.state.error == "notOneOf"
    ensures !HasFeed(s.feeds, value) && invalid.Some? ==> r.state.error == invalid.value
    ensures r.currentId.None? ==> r.state.idCounter == s.idCounter
    ensures r.currentId.Some? ==>
      r.state.error == "" && r.state.idCounter == s.idCounter + 1 && r.currentId.value == r.state.idCounter
  {
    var s1 := s.(website := value);
    if HasFeed(s.feeds, value) then Submission(s1.(error := "notOneOf"), None)
    else if invalid.Some? then Submission(s1.(error := invalid.value), None)
    else Submission(s1.(error := "", idCounter := s.idCounter + 1), Some(s.idCounter + 1))
  }

  /** The document passed the `parsererror` check and has a `title` and a `description` element somewhere. */
  predicate Readable(doc: Doc) {
    !doc.parserError && doc.title.Some? && doc.description.Some?
  }

  /**
   * Settles the first fetch of an accepted value. A rejection with a message
   * shows `networkError`, one without is rethrown and changes nothing. A
   * `parsererror` node shows `rssInvalid`. A document with no `title` (or no
   * `description`) element at all throws inside the chain, which the `catch` turns into
   * `networkError`. Otherwise the feed is stored and every item becomes a post
   * of this submission, with no check for known links; an incomplete item stops
   * the item loop there, keeping the posts already stored.
   */
  function InitialAdd(s: State, currentId: nat, value: string, outcome: FetchOutcome): (r: State)
    ensures r.website == s.website && |s.feeds| <= |r.feeds| && |s.posts| <= |r.posts|
    ensures r.feeds[..|s.feeds|] == s.feeds && r.posts[..|s.posts|] == s.posts
    ensures outcome.Rejected? && outcome.message != "" ==> r == s.(error := "networkError")
    ensures outcome.Rejected? && outcome.message == "" ==> r == s
    ensures outcome.Fetched? && outcome.doc.parserError ==> r == s.(error := "rssInvalid")
    ensures outcome.Fetched? && !outcome.doc.parserError && !Readable(outcome.doc) ==>
      r == s.(error := "networkError")
    ensures outcome.Fetched? && Readable(outcome.doc) ==>
      var doc := outcome.doc;
      var added := |r.posts| - |s.posts|;
      && r.error == s.error
      && r.feeds == s.feeds + [Feed(currentId, value, doc.title.value, doc.description.value)]
      && r.idCounter == s.idCounter + added
      && 0 <= added <= |doc.items|
      && (added == |doc.items| <==> AllComplete(doc.items))
      && (added < |doc.items| ==> !Complete(doc.items[added]))
      && (forall k :: 0 <= k < added ==>
            && ReadItem(doc.items[k]) == Some(Item(r.posts[|s.posts| + k].title,
                 r.posts[|s.posts| + k].description, r.posts[|s.posts| + k].link))
            && r.posts[|s.posts| + k].feedId == currentId
            && r.posts[|s.posts| + k].id == s.idCounter + 1 + k)
  {
    match outcome
    case Rejected(message) => if message != "" then s.(error := "networkError") else s
    case Fetched(doc) =>
      if doc.parserError then s.(error := "rssInvalid")
      else if !Readable(doc) then s.(error := "networkError")
      else
        var items := ReadItems(doc.items);
        ReadItemsAll(doc.items);
        var appended := Stamp(items, currentId, s.idCounter + 1);
        assert (s.posts + appended)[..|s.posts|] == s.posts;
        assert forall k :: 0 <= k < |items| ==> (s.posts + appended)[|s.posts| + k] == appended[k];
        s.(feeds := s.feeds + [Feed(currentId, value, doc.title.value, doc.description.value)],
           posts := s.posts + appended,
           idCounter := s.idCounter + |items|)
  }

  /**
   * The items a refresh of one feed merges: none when the fetch was rejected,
   * otherwise the readable prefix of the document's items. The refresh never
   * looks for a `parsererror` node.
   */
  function Batch(outcome: FetchOutcome): seq<Item> {
    match outcome
    case Rejected(_) => []
    case Fetched(doc) => ReadItems(doc.items)
  }

  /**
   * Settles the refresh fetch of one feed. A rejection leaves the state as it
   * is and shows no error. Otherwise the items are read as lines 101-119 do,
   * without a `parsererror` check, and the readable ones are merged: every one
   * of their links is posted afterwards.
   */
  function RefreshFeed(s: State, currentId: nat, outcome: FetchOutcome): (r: State)
    ensures outcome.Rejected? ==> r == s
    ensures r == MergeItems(s, currentId, Batch(outcome))
    ensures outcome.Fetched? ==>
      forall i :: 0 <= i < |ReadItems(outcome.doc.items)| ==> HasLink(r.posts, ReadItems(outcome.doc.items)[i].link)
  {
    match outcome
    case Rejected(_) => s
    case Fetched(doc) =>
      var items := ReadItems(doc.items);
      MergeLinksAll(s, currentId, items);
      assert forall i :: 0 <= i < |items| ==> ItemHasLink(items, items[i].link);
      MergeItems(s, currentId, items)
  }

  /** A refresh reads the same items whether or not the document carries a `parsererror` node. */
  lemma RefreshIgnoresParserError(s: State, currentId: nat, doc: Doc)
    ensures RefreshFeed(s, currentId, Fetched(doc)) == RefreshFeed(s, currentId, Fetched(doc.(parserError := !doc.parserError)))
  {
  }

  /** The items of all refreshed feeds of a pass, feed after feed. */
  function Batches(outcomes: seq<FetchOutcome>): seq<Item> {
    if outcomes == [] then [] else Batch(outcomes[0]) + Batches(outcomes[1..])
  }

  /** Settles the outcomes one after the other. */
  function ApplyOutcomes(s: State, currentId: nat, outcomes: seq<FetchOutcome>): (r: State)
    ensures r == MergeItems(s, currentId, Batches(outcomes))
    decreases |outcomes|
  {
    if outcomes == [] then s
    else
      var s1 := RefreshFeed(s, currentId, outcomes[0]);
      MergeAppend(s, currentId, Batch(outcomes[0]), Batches(outcomes[1..]));
      ApplyOutcomes(s1, currentId, outcomes[1..])
  }

  /**
   * One pass of the timer of the submission `currentId`: every stored feed is
   * fetched again, and the outcomes, one per feed in feed order, are settled in
   * turn. Posts are only appended: exactly the items whose link no post had
   * yet, each tagged with `currentId` rather than with its own feed's id.
   */
  function RefreshPass(s: State, currentId: nat, outcomes: seq<FetchOutcome>): (r: State)
    requires |outcomes| == |s.feeds|
    ensures r.website == s.website && r.error == s.error && r.feeds == s.feeds
    ensures r == MergeItems(s, currentId, Batches(outcomes))
  {
    ApplyOutcomes(s, currentId, outcomes)
  }

  /**
   * A refresh pass appends exactly the items, over all refreshed feeds in feed
   * order, that no earlier post and no earlier item of the pass links to, each
   * tagged with `currentId` and a fresh id; nothing else changes.
   */
  lemma RefreshPassAppendsNewItems(s: State, currentId: nat, outcomes: seq<FetchOutcome>)
    requires |outcomes| == |s.feeds|
    ensures RefreshPass(s, currentId, outcomes)
         == s.(posts := s.posts + Stamp(NewItems(s.posts, Batches(outcomes)), currentId, s.idCounter + 1),
               idCounter := s.idCounter + |NewItems(s.posts, Batches(outcomes))|)
  {
    MergeIsNewItems(s, currentId, Batches(outcomes));
  }

  /**
   * A refresh pass keeps post links pairwise distinct, and afterwards a link is
   * posted exactly when it was posted before or some refreshed feed has it.
   */
  lemma RefreshPassLinks(s: State, currentId: nat, outcomes: seq<FetchOutcome>)
    requires |outcomes| == |s.feeds|
    ensures LinksDistinct(s.posts) ==> LinksDistinct(RefreshPass(s, currentId, outcomes).posts)
    ensures forall l :: HasLink(RefreshPass(s, currentId, outcomes).posts, l)
                    <==> HasLink(s.posts, l) || ItemHasLink(Batches(outcomes), l)
  {
    MergeKeepsLinksDistinct(s, currentId, Batches(outcomes));
    MergeLinksAll(s, currentId, Batches(outcomes));
  }
}
