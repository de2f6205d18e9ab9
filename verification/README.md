# RSS reader core, modelled in Dafny

A small browser RSS reader (`src/application.js`, `src/parsers.js`). The user
submits feed URLs. Each accepted URL is fetched through a proxy and parsed as
RSS. The feed and its items are stored. A timer then re-fetches every stored
feed every five seconds and appends items it has not seen yet.

The model keeps the reader's logic and drops the DOM, the network and the
timers. It has three parts:

- **State.** One immutable record, `AppState.State`, holds the last submitted
  value (`website`), the feedback key (`error`), the stored `feeds` and
  `posts`, and `idCounter`. `idCounter` models lodash's global `uniqueId`
  counter: the last id handed out, so the next id is `idCounter + 1` and the
  first is 1. Every handler moves it for each `uniqueId()` call of its own.
  The ids `parsers` draws when a handler calls it are not counted there (see
  "## Left out").
- **Documents.** `Document.Doc` stands for the tree `DOMParser` builds. It has a
  `parsererror` flag, the optional text of the first `title` and `description`
  elements, and the `item` elements. Each item has an optional `title`,
  `description` and `link` child. A missing element is a `querySelector` that
  returns `null`. Reading `.textContent` from it throws a `TypeError`.
- **Transitions.** Each handler is a pure function from state and inputs to
  the new state:
  - `OnInputChange`: the input's `change` handler.
  - `Submit`: the form's submit decision.
  - `InitialAdd`: settles the first fetch of an accepted URL.
  - `RefreshPass`: one tick of a submission's timer, a fold over one fetch
    outcome per stored feed.
  - `Parsers.Parse`: the parser, a total function from a document and the
    counter to a result and the new counter.

Modules: `Wrappers` (Option, Result), `Document`, `Parsers`, `AppState`,
`Merge` (the refresh dedup), `Application` (the handlers), `Invariants`, and
`Scenarios` (concrete traces).

## Where the code differs from a per-feed reader

- A per-feed reader would dedup against that feed's own posts. The code's
  refresh dedup checks an item's link against the whole post list, across all
  feeds (`src/application.js:110`). The model does the same.
- Refreshed posts get the `currentId` of the submission whose timer runs.
  They do not get the refreshed feed's id (`src/application.js:113`). Every
  accepted submission starts its own timer, and each timer re-fetches every
  feed. A timer also starts when the first fetch failed. Its posts then refer
  to an id no feed has (`Scenarios.FailedAddStillTagsPosts`).
- The first add does not dedup (`src/application.js:155-161`). Post links are
  therefore not unique in general. Only a refresh keeps them distinct.
- The duplicate-URL check only sees feeds already stored. Two submits of the
  same URL before the first fetch settles both store a feed
  (`Scenarios.RacingSubmitsStoreDuplicateFeeds`). Feed URLs stay distinct when
  each add settles before the next submit
  (`Invariants.SubmitThenAddKeepsFeedLinksDistinct`).
- The parser takes an id for each complete item before it reaches an
  incomplete one. Those ids stay consumed when the parse then fails
  (`Parsers.FailedParseConsumesIds`).
- In `InitialAdd`, a document with no `title` (or no `description`) element
  anywhere throws inside the promise chain: `querySelector` searches the whole
  document, so an item's title also counts. The `catch` has a message, so it sets `networkError`. An
  incomplete item throws inside the separate item promise, which nothing
  awaits. That stops the item loop only: earlier items stay stored, and the
  feed is stored anyway. A rejection whose message is empty is rethrown and
  changes nothing.
- In a refresh, a rejected fetch changes nothing and shows no error. A fetched
  document is read as lines 100-119 do: there is no `parsererror` check, and
  the items up to the first incomplete one are merged
  (`Application.RefreshIgnoresParserError`).

## Model

| member | source | states |
|---|---|---|
| Application.OnInputChange | src/application.js:69-73 | an empty value sets error `isEmpty` and changes nothing else; a non-empty value changes nothing |
| Application.OnInputChangeIdempotent | src/application.js:69-73 | handling the same change twice leaves the state as handling it once |
| Application.Submit | src/application.js:75-91 | the value is stored as `website`; a value equal to a stored feed's link gives `notOneOf` whatever the validation result; otherwise a validation failure gives its message; only then is the value accepted, with error `''` and exactly one new id equal to the counter's new value; feeds and posts never change, and no id is drawn on refusal |
| Application.InitialAdd | src/application.js:133-184 | a rejection with a message sets `networkError` and one without changes nothing; a `parsererror` node sets `rssInvalid` only; a document with no `title` or no `description` element sets `networkError` only; otherwise exactly one feed `{currentId, value, title, description}` is appended, and the posts grow by one per item in item order up to the first incomplete item (all items when all are complete), with no dedup, each tagged `currentId`, its texts read from its item and its id the next counter value |
| Application.RefreshFeed | src/application.js:94-119 | a rejected fetch leaves the state unchanged; otherwise the items up to the first incomplete one are merged, and every one of their links is posted afterwards |
| Application.RefreshIgnoresParserError | src/application.js:100-119 | a refresh merges the same items whether or not the document carries a `parsererror` node |
| Application.ApplyOutcomes | src/application.js:94-128 | settling the per-feed outcomes one after another equals one merge of all their items concatenated in feed order |
| Application.RefreshPass | src/application.js:93-131 | a pass changes neither feeds, error nor website, and equals a merge of the concatenated batches of the feeds whose fetch succeeded |
| Application.RefreshPassAppendsNewItems | src/application.js:105-119 | a pass appends exactly the items, over all feeds in order, that neither an earlier post nor an earlier item of the pass links to, tagged `currentId`, with consecutive ids after the counter, which advances by their number |
| Application.RefreshPassLinks | src/application.js:105-119 | a pass keeps post links pairwise distinct, and afterwards a link is posted exactly when it was posted before or some refreshed item has it |
| Merge.MergeItems | src/application.js:105-119 | a merge only appends: the old posts are a prefix, feeds, error and website are unchanged, at most one post per item is added, each tagged `currentId` with consecutive ids after the counter, which advances by the number appended |
| Merge.MergeLinks | src/application.js:105-119 | after a merge a link is posted exactly when it was posted before or is the link of an item of the batch, so every item's link is present |
| Merge.MergeAppendsUnseen | src/application.js:110-118 | every appended post carries the link of a batch item that no earlier post, old or appended in the same pass, had |
| Merge.MergeKeepsLinksDistinct | src/application.js:110-119 | if post links were pairwise distinct before a merge they are after it |
| Merge.MergeIsNewItems | src/application.js:105-119 | the merge equals the independent index-based filter: it appends exactly the items that are the first occurrence of a link not yet posted, in batch order |
| Merge.MergeKnown | src/application.js:110-111 | a batch whose every link is already posted changes nothing |
| Merge.MergeIdempotent | src/application.js:105-119 | merging the same batch twice adds nothing the second time |
| Merge.MergeAppend | src/application.js:94-119 | merging two batches in turn equals merging their concatenation |
| Document.ReadItem | src/parsers.js:16-18 | an item yields its title, description and link texts exactly when all three children are present |
| Document.ReadItems | src/parsers.js:15-20 | items are read in document order up to the first incomplete one, where the callback throws |
| Document.ReadItemsAll | src/parsers.js:15-18 | every item is read exactly when every item is complete |
| Document.ReadItemsRoundTrip | src/parsers.js:16-18 | reading back the item elements built from item texts gives the same texts |
| Parsers.Parse | src/parsers.js:3-24 | a `parsererror` flag, and nothing else, gives `rssInvalid` with the counter unchanged; a missing title, description, or item child fails the whole parse with no partial result; on success the title and description are the first such elements' texts, there is one record per item in document order with that item's texts, every id is fresh (above the old counter, at most the new one), and the counter advances by the number of items |
| Parsers.ParsedIdsIncreasing | src/parsers.js:15-19 | the ids of one result are strictly increasing, hence pairwise distinct |
| Parsers.FailedParseConsumesIds | src/parsers.js:15-19 | when item k is the first incomplete one, the parse fails and the counter has still advanced by k |
| Parsers.UnparseThenParse | src/parsers.js:10-22 | parsing the document of a channel whose ids continue the counter gives back that channel |
| Parsers.ParseThenUnparse | src/parsers.js:10-22 | a successful parse loses nothing: its result rebuilds the document |
| Invariants.OnInputChangeKeepsInv | src/application.js:69-73 | the input handler keeps all feed and post ids distinct and issued |
| Invariants.SubmitKeepsInv | src/application.js:89-91 | a submit keeps all feed and post ids distinct and issued, and the id it allocates is issued and held by no feed or post |
| Invariants.InitialAddKeepsInv | src/application.js:149-172 | storing a feed and its posts under a fresh issued `currentId` keeps all ids distinct and issued |
| Invariants.MergeKeepsInv | src/application.js:110-118 | a refresh merge keeps all ids distinct and issued |
| Invariants.RefreshPassKeepsInv | src/application.js:94-128 | a refresh pass keeps all ids distinct and issued |
| Invariants.SubmitThenAddKeepsInv | src/application.js:85-172 | an accepted submit followed by the settling of its fetch keeps all ids distinct and issued |
| Invariants.SubmitThenAddKeepsFeedLinksDistinct | src/application.js:85-172 | with nothing in between, an accepted submit and its add keep feed URLs distinct |
| Scenarios.AddExample | src/application.js:133-172 | submitting a feed with items `link1`, `link2` to a fresh reader stores one feed and two posts with ids 2 and 3 |
| Scenarios.RefreshExample | src/application.js:105-119 | a refresh that also sees `link3` appends exactly one post, for `link3`, and keeps the first two |
| Scenarios.DuplicateSubmit | src/application.js:85-86 | resubmitting a stored URL gives `notOneOf` and stores nothing, even when validation also fails |
| Scenarios.OneFeedFailsOtherSucceeds | src/application.js:94-128 | a rejected fetch for one feed does not stop another feed's new item from being added in the same pass |
| Scenarios.RacingSubmitsStoreDuplicateFeeds | src/application.js:85-172 | two submits of one URL before either fetch settles both store a feed with that URL |
| Scenarios.FailedAdd | src/application.js:175-181 | a rejected first fetch with a message sets `networkError` and stores nothing |
| Scenarios.FailedAddStillTagsPosts | src/application.js:112-118 | the timer of a failed submission still appends posts, tagged with an id no feed has |
| Scenarios.InitialAddDoesNotDedup | src/application.js:150-161 | the first add stores an item even when its link is already posted |

## Left out

- `src/view.js` and the `onChange` notifications. The model assumes every notification returns normally. As written, none does. `src/application.js:67` calls `initView(state, i18nInstance, elements)`, but `initView` (`src/view.js:142`) takes `(i18next, elements)`, so the view receives the state as its translator and `i18nInstance` as its elements. `elements` (`src/application.js:55-65`) also has no `buttonForm`, which `src/view.js:14`, `:61` and `:103` use. So every notification for `urlForm.error`, `urlForm.feeds` or `urlForm.posts` throws (`src/view.js:8`, `:31`, `:76`) after `on-change` has stored the value. The model leaves out these effects:
  - The `rssInvalid` set at `src/application.js:141` is then overwritten with `networkError` by the `catch` at line 175.
  - A successful first add stores the feed (line 167) and then also sets `networkError`.
  - Each `items.map` (lines 150 and 105) stops after its first appended post.
  - An accepted submit while an error is showing throws at line 91, before the fetch at line 133, so no fetch and no timer happen.
- `axios`, `buildUrlProxy` and the network: a fetch is an input, `FetchOutcome`, either the parsed document or a rejection with its message.
- `setTimeout` rescheduling (`src/application.js:130`, `183`): each timer tick is one `RefreshPass`, and how many ticks run is up to the caller.
- The ordering of promises and microtasks. Fetches of one pass settle in any order; the model settles them in feed order. In `InitialAdd` the feed is appended before the posts; only the final sequences are modelled.
- The `yup` schema (`src/application.js:12-29`) and i18n: the validation result is an input, `Option<string>`, the error message or none.
- `DOMParser` and CSS-selector semantics: replaced by `Document.Doc`.
- The glue between the two files. `src/application.js:139` and `:101` call `querySelector`/`querySelectorAll` on the plain object `parsers` returns. `parsers` itself throws on a `parsererror` node, on a missing `title` or `description` (`src/parsers.js:11-12`), or on an incomplete item. For the call at line 135 the `catch` at line 175 reports such a throw as `networkError`. For the call at line 97 the refresh chain (lines 94-125) has no `catch`, so the throw is an unhandled rejection and nothing is merged. `parsers` also draws one id per complete item (`src/parsers.js:19`) on both calls; `InitialAdd` and `RefreshFeed` do not count those ids in `idCounter`. The model does not compose the two files: it treats the calls at lines 97 and 135 as handing the document through unchanged, so `InitialAdd` reads it as lines 139-172 do and `RefreshFeed` as lines 100-119 do. `Parsers.Parse` models `parsers` on its own.
- Document.Doc: the first `title` and `description` are recorded independently of the items' children, so a `Doc` with no top-level title but a titled item can be written, which no DOM produces (there `querySelector('title')` would find the item's title). On such a value `InitialAdd` gives `networkError` and `Parse` fails; the model does not rule these values out.
- `uiPosts` (copied unchanged at `src/application.js:120`, `165`) and the `console.log` at line 82.
- Lodash ids are the strings `"1"`, `"2"`, …; the model keeps their numeric value.
