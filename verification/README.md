# overlay-s3: a verified model

overlay-s3 is an S3 gateway in front of two S3 backends. Writes go to the *overlay*, which keeps
every client bucket inside one physical bucket under a configurable key prefix. Reads prefer the
overlay and fall back to the *baseline*, which is never written. Listings merge the two backends
page by page, although both paginate on their own, with opaque tokens and pages of any size.

This project models the gateway's logic in Dafny and proves that the layers add up:

* following the tokens of a listing shows exactly the listing of the baseline overridden by the
  overlay, each entry once and in order, for all contents, page splits, page limits and any
  interleaving with other clients (`ListingRuns.TraversalListsEverything`); in every history of a
  server that mixes listings, reads and writes this is what the bucket holds, as long as nobody
  writes to it meanwhile (`ServerRuns.ServedListingsShowTheBucket`);
* if the bucket itself grows between the pages, every old key is still listed exactly once and
  nothing that does not exist (`GrowthRuns.GrowingListingsAreComplete`; with writes between any two
  backend pages, retries included, `Growth.GrowingListing`);
* an overlay store over another overlay store lists the map that is overridden twice
  (`Nesting.StackedListingsShowEverything`, `ServerRuns.StoresOverServersListEverything`);
* listing the physical key space and mapping back is listing the client's own bucket, grouping by
  delimiter included (`KeyMapping.MappingIsTransparent`);
* any sequence of GET, HEAD, PUT, conditional PUT, copy and create-bucket requests is answered as
  one plain map from bucket and key to object would answer it (`Refinement.ServeAll`);
* the aws-chunked decoder returns the payload for every framing and every pattern of reads
  (`Chunked.ReadAll` with `Chunked.DecodeEncode`), ranged GETs deliver one well-defined slice, and
  the canonical request encoding is injective.

## How it is laid out

| file | content |
|---|---|
| `Order`, `Text`, `Numbers`, `Results` | byte order, searching, number syntax, options and results |
| `Listing` | entries, grouping, splitting and merging of listings |
| `KeyMapping`, `Buckets` | the key mapping of the overlay; bucket names from common prefixes |
| `S3Service` | what an S3 backend may do: a class whose methods choose freely among allowed answers |
| `S3Store` | the store on one backend (remote.go) |
| `Streams`, `Sessions`, `SessionRuns` | resume positions and feeds, the session table, and all its runs |
| `Loops`, `OverlayStore` | the steps of the merge loop; cursors, merge loop, layering (overlay.go) |
| `ListingRuns`, `Nesting` | whole listings over two feeds; overlays of overlays |
| `Serving`, `ServerRuns` | one call of the page method; histories of a server that serves any calls |
| `Growth`, `GrowthRuns` | listings under writes as a state machine, and in histories of a server |
| `Ranges`, `Gateway`, `Protocol` | byte ranges, the object handlers, path routing |
| `Refinement` | the gateway as one map |
| `Chunked`, `Canonical` | body readers and canonical encodings (sigv4.go) |
| `Uploads` | framed bodies on their way through the readers and the write handler |

Classes carry the state the program updates: the backend (`Service`), the session table
(`ListSessions`), a listing cursor (`ListCursor`), the readers. Their methods are proved against
functions of that state, and the lemmas are about these functions. Backends are nondeterministic:
any call may fail, a page may hold any number of entries, tokens are arbitrary non-empty
strings, ranges may be honoured or ignored. A constant says whether a backend is reliable, that is
answers every request it can answer; contracts name the failures that remain if it is. Clock readings, request headers and bodies are
parameters. Byte strings are Dafny strings compared by character code.

## Where the code differs from what is said about it

* README.md:25 and README.md:37-40 promise a merged `ListBuckets` that derives overlay buckets from the
  first-level prefixes. With a configured key prefix the code lists no overlay bucket at all,
  because it lists the prefix without its trailing slash (remote.go:328). `Buckets.BucketsAreListedExactlyIf`
  is the exact condition, `Buckets.CreatedBucketIsNotListed` a concrete case.
* A truncated aws-chunked body is not detected by the decoder: it ends as its source ends, because
  the check at sigv4.go:170 looks for a chunk that is complete (`Chunked.CutBodyIsAccepted` is a case). Only a source that reports its end
  together with the last byte of a chunk makes it notice. `Chunked.TruncationIsNoticedExactlyIf`
  gives the possible ends for every cut, `Chunked.TruncationLosesDataExactlyIf` says when payload
  is lost, and by `Uploads.UploadAndGet` such a body is stored.
* A negative chunk size is accepted by the header parser and then makes the read slice its buffer
  out of range (sigv4.go:152-167). `Chunked.NegativeSizeIsAccepted` is the shortest body that does it,
  `Chunked.SliceOutOfRangeExactlyIf` the exact condition for framed bodies, and
  `Chunked.DecodeFramed` says what is delivered before.
* An unknown, malformed or collected token restarts a listing without notice (overlay.go:66-75), and
  a token with leading zeros, which is never handed out, resumes the session of its number.
  `SessionRuns.AnyTokenResumesExactlyIf` states for every string what it stands for,
  `SessionRuns.CollectedTokenRestarts` is the shortest run in which a token is lost.
* A token carries no bucket, prefix or delimiter (overlay.go:66-78). A request that presents the
  token of another listing shows what that listing's session kept back:
  `OverlayStore.OverlayStore.ListsOwnKeysExactlyIf`, with `OverlayStore.ForeignTokenShowsOldKey` as an
  instance.
* `If-Match: *`, lists of tags in `If-Match`, and any tags in `If-None-Match` are not treated as
  sections 13.1.1 and 13.1.2 of RFC 9110 ask for (handlers.go:381-399):
  `Gateway.IfMatchWildcardIsHonouredExactlyIf`, `Gateway.IfMatchIsHonouredExactlyIf`,
  `Gateway.IfNoneMatchIsHonouredExactlyIf`, with `Gateway.WildcardIsRefused` as an instance.
* `max-keys=0` lists up to 1000 entries instead of none (overlay.go:222-224):
  `OverlayStore.LimitIsKeptExactlyIf`, with `OverlayStore.ZeroLimitIsNotKept` as an instance.
* A `max-keys` above 2^31-1 is cut to 32 bits (remote.go:268). If it is a multiple of 2^32 the
  backends are asked for no entries, and every listing is answered as empty and complete:
  `OverlayStore.OverlayStore.FirstPageIsEmptyExactlyIf` and `S3Store.LimitWrapsExactlyIf`. The model
  takes a backend to answer a limit of zero with an empty complete page and to refuse a negative one,
  which is what the limits between become.
* The canonical query keeps only the least of several values of a key (sigv4.go:355-357), so it is
  injective on single-valued queries only: `Canonical.SameCanonicalExactlyIf`, `Canonical.OtherValuesAreLost`.

## Model

| member | source | states |
|---|---|---|
| ListingRuns.TraversalListsEverything | overlay.go:217-283 | following tokens until a page is not truncated lists exactly the grouped, ordered listing of the baseline bucket overridden by the overlay bucket, for all contents, page splits, per-request limits, other clients' requests, failures and retries in between |
| ListingRuns.TraversalListsPending | overlay.go:217-283 | from any token on, the pages together list what that token's session still had to list, in order |
| ListingRuns.NextPending | overlay.go:226-280 | a request that follows a truncated page lists what the page left over: nothing skipped, nothing repeated |
| ListingRuns.TraversalListsMerge | overlay.go:217-283 | the same over any two feeds, whatever stores they come from |
| ListingRuns.AcceptedGrows | overlay.go:50-79 | nothing that happens later takes an answer back |
| Serving.AnswerIsAccepted | overlay.go:221-283 | the promise of the page method, about the store before and after, is that of an accepted request over the feeds of its backends |
| Serving.AnswerIsExecuted | overlay.go:221-283 | and the loop that the method ran is an execution of that request: from the positions of its token to the session it leaves |
| Serving.Answer | overlay.go:221-283 | each call of the page method continues a run of the session table, and an answer is an accepted and executed request of that run |
| ServerRuns.HistoryBegins | overlay.go:90-101 | any state of a server, whatever run its session table has behind it, begins a history |
| ServerRuns.ServePage | overlay.go:221-283 | a call for a page continues the history and changes nothing that is stored |
| ServerRuns.ServeOperation | handlers.go:90-128 | an operation continues the history by one step of the single map, and other buckets stay |
| ServerRuns.ServeCalls | handlers.go:62-128 | any calls of any clients, served one after another from any state, continue the history; with reliable backends only bodies that cannot be stored fail |
| ServerRuns.ServedListingsShowTheBucket | overlay.go:217-283 | whatever is served in between, as long as nobody writes to the bucket, the pages that one client collects by following tokens in time list exactly what the single map holds of it |
| ServerRuns.ListingIsTraversal | overlay.go:217-283 | the calls of such a listing are a traversal of the feeds of any moment meanwhile |
| ServerRuns.QuietKeepsObjects | remote.go:110-116 | writes to other buckets leave a bucket's objects alone |
| ServerRuns.SameRest | remote.go:258-305 | what a backend has left to list of a client bucket behind any token depends on that bucket's objects alone |
| ServerRuns.SoonGoesOn | overlay.go:13 | a token presented within ten minutes after its page was answered is in time |
| ServerRuns.HeadsAgreeWithListings | handlers.go:368-378 | a HEAD served before, between or after the pages of a whole listing finds a key exactly if the pages show it, with the size and the tag shown, as long as nobody writes to the bucket meanwhile |
| ServerRuns.StoresOverServersListEverything | overlay.go:90-101 | an overlay store whose baseline is a server lists what the server holds overridden by what its own overlay lists |
| ListingRuns.AcceptedIsStable | overlay.go:22-30 | answers stay valid while backends hand out further tokens |
| ListingRuns.TraversalPageCount | overlay.go:237-282 | at a constant limit m, n entries take n/m pages rounded up, and one page for none |
| ListingRuns.PagesNeeded | overlay.go:237-282 | that is n over m rounded up, and one for n of zero |
| ListingRuns.TruncatedPagesAreFull | overlay.go:237-282 | a truncated page holds exactly the effective limit of entries |
| OverlayStore.OverlayStore.ListPage | overlay.go:221-283 | a page is cut from what its token still has to list; it is truncated exactly if entries remain, and then its token stands for exactly those; a failed or final request creates no session; a page is truncated iff more entries remain than the client's limit, 1000 if that is not positive, and holds exactly so many then; with reliable backends it fails only if the baseline bucket is missing or the limit wraps to a negative number; the pages fetched and the turns taken are returned |
| OverlayStore.OverlayStore.MergeFrom | overlay.go:226-281 | the same for given resume positions, and the positions reached stream exactly what is left |
| OverlayStore.OverlayStore.ServePage | overlay.go:237-281 | a page of two cursors is cut from their merge, truncated exactly if entries remain, and the positions saved are those of the cursors behind it |
| OverlayStore.OverlayStore.FillPage | overlay.go:237-267 | the emitted entries followed by the merge of both streams is the merge before; a page stays short only if nothing is left |
| OverlayStore.AppendEntry | overlay.go:230-236 | an entry goes to the half of the page it belongs to |
| OverlayStore.OverlayStore.PeekBoth | overlay.go:238-245 | both cursors load, and report the heads of their streams, none exactly at the end |
| OverlayStore.OverlayStore.MergeNext | overlay.go:238-266 | one turn takes the head of the merged stream, and is a step of the loop; none is found only if both streams are empty |
| OverlayStore.OverlayStore.HasMore | overlay.go:269-277 | more is reported exactly if the merged stream is not empty, and nothing is consumed |
| OverlayStore.MergePageEntries | overlay.go:131-146 | the index loop computes the merge of a page's two halves, objects first on equal keys |
| OverlayStore.ListCursor.constructor | overlay.go:165-171 | a cursor made from a saved position streams what that position stands for |
| OverlayStore.ListCursor.Fetch | overlay.go:176-195 | fetching a page leaves the stream unchanged and brings its end nearer; a missing overlay bucket streams as empty, a missing baseline bucket is an error, and a steady backend's fetch succeeds |
| OverlayStore.ListCursor.Load | overlay.go:175-197 | loading terminates through any number of empty truncated pages, leaves the stream unchanged and ends with an entry at hand or the stream done |
| OverlayStore.ListCursor.Peek | overlay.go:199-207 | delivers the head of the stream, and none exactly at its end |
| OverlayStore.ListCursor.Advance | overlay.go:209 | consumes exactly the head of the stream |
| OverlayStore.ListCursor.Snapshot | overlay.go:211-215 | saves a position that the backend knows and at which a new cursor streams exactly what this one still would |
| OverlayStore.LimitIsKeptExactlyIf | overlay.go:222-224 | a page holds at most the limit asked for iff the limit is positive or nothing is left to list |
| OverlayStore.PageHoldsLimit | overlay.go:222-282 | a page is truncated iff more entries remain than the client's limit, 1000 if that is not positive; it holds exactly the limit then, and all that remain otherwise |
| ServerRuns.RepliesHoldLimit | overlay.go:222-282 | the same of every reply of a history, in terms of the limit of its call |
| OverlayStore.ZeroLimitIsNotKept | overlay.go:222-224 | a request for no entries that is answered with one |
| OverlayStore.OverlayStore.StartIsView | overlay.go:217-283 | a listing from the start lists what the bucket shows, unless its limit wraps to zero |
| OverlayStore.OverlayStore.FirstPageIsEmptyExactlyIf | remote.go:261-269 | a first page is empty iff the bucket has nothing to list or the limit wraps to zero, and then it claims to be complete |
| S3Store.LimitWrapsExactlyIf | remote.go:261-269 | the limit becomes zero iff it is a positive multiple of 2^32, and negative iff it is positive and its low 32 bits exceed 2^31-1 |
| S3Store.LimitIsPassedOn | remote.go:261-269 | a limit that fits reaches the backend as it is, and 1000 if it is not positive |
| OverlayStore.OverlayStore.ListsOwnKeysExactlyIf | overlay.go:66-78 | a request lists only keys of its own listing iff all keys that its token's session kept back are among them |
| OverlayStore.ForeignTokenShowsOldKey | overlay.go:225-227 | an empty bucket in which the token of another listing shows a key |
| Gateway.PrintedLimitIsAccepted | handlers.go:200-206 | the handler accepts every non-negative limit of 64 bits |
| Gateway.MaxKeysAre | handlers.go:195-206 | no limit means 1000, a non-negative number is itself, and anything else is refused with 400 |
| Gateway.WrappedLimitIsAccepted | handlers.go:200-206 | it accepts one that becomes zero |
| OverlayStore.OverlayStore.Get | overlay.go:103-112 | reads the merged view: the overlay's object if it has one, else the baseline's, whole or the exact slice |
| OverlayStore.OverlayStore.Head | overlay.go:114-123 | the same for metadata; not found only if the merged view has no such key, and no other failure with reliable backends |
| OverlayStore.OverlayStore.Put | overlay.go:125-127 | changes one key of one bucket of the merged view, nothing on failure; succeeds with a reliable overlay that has its bucket |
| OverlayStore.OverlayStore.CreateBucket | overlay.go:324-326 | changes no key of any bucket of the merged view |
| OverlayStore.OverlayStore.ListBuckets | overlay.go:285-307 | exactly the names in both stores' lists, each earlier one preceding each later one in byte order |
| Listing.MergedListing | overlay.go:237-267 | merging the grouped listings of two buckets, overlay first on ties, is the grouped listing of the override map |
| Listing.GroupedOverride | overlay.go:237-267 | grouping commutes with shadowing |
| Listing.GroupKeyIsStable | overlay.go:15-20 | whether an entry is an object or a common prefix depends on its key alone, and grouping is idempotent |
| Listing.GroupedWithoutDelimiter | store.go:63-69 | without delimiter a listing shows exactly the objects below the prefix |
| Listing.MergedPageRestores | overlay.go:129-146 | splitting an ordered page into objects and prefixes and merging them restores it |
| Listing.SplitMergedPage | overlay.go:129-146 | merging two halves, ordered or not, loses and reorders nothing of either |
| Listing.MergeIsOverride | overlay.go:248-257 | the two-way merge of ordered lists is the ordered list of the override map |
| Listing.MergeContents | overlay.go:248-257 | an entry is in the merge iff it is in the overlay's list, or in the baseline's with no overlay entry of its key |
| Listing.MergeOrdered | overlay.go:248-257 | the merge is strictly ordered |
| Order.LessIsByteOrder | overlay.go:248-257 | the order of everything is byte order: at the first difference one string ends or has the smaller byte |
| Order.AscendingIsByteOrder | overlay.go:305 | of any two names in an ordered list the earlier one precedes the later one in byte order |
| Listing.OrderedIsByteOrder | overlay.go:129-137 | the same of any two entries of a listing |
| Listing.TiesTakeObjectFirst | overlay.go:135-142 | on equal keys a page's object comes before its common prefix |
| Listing.GroupingIs | store.go:63-69 | a key is rolled up iff the delimiter stands behind the prefix, into what lies up to the end of the first such place |
| Text.FindIsFirst | sigv4.go:149 | searching finds the first place where a separator stands, and nothing iff it stands nowhere |
| Listing.MergeKeys | overlay.go:248-257 | its keys are those of both lists, ordered or not |
| Listing.MergeAssociative | overlay.go:248-257 | merging three ordered lists does not depend on which two are merged first |
| Sessions.ListSessions.Create | overlay.go:50-60 | expired sessions go, the next 64-bit number is taken, the token is its decimal form |
| Sessions.ListSessions.Lookup | overlay.go:62-79 | a known token gives its positions and lives on; any other token gives the start |
| Sessions.ListSessions.GcLocked | overlay.go:81-88 | removes exactly the sessions past their expiry |
| SessionRuns.NumbersAreNeverReused | overlay.go:54-59 | over every run a new session's number and token differ from all earlier ones |
| SessionRuns.NumbersCountUp | overlay.go:54-55 | numbers count up from one and never exceed the number of events |
| SessionRuns.TokenFindsItsSession | overlay.go:59-71 | printing and parsing a session number find the same session |
| SessionRuns.PositionsAreImmutable | overlay.go:50-79 | a session holds the positions it was created with for its whole life, whatever other requests do |
| SessionRuns.SurvivesExactlyIf | overlay.go:50-88 | a session is still in the table iff every later creation came within ten minutes of its last use before; its expiry is its last use plus ten minutes |
| SessionRuns.RecentSessionsSurvive | overlay.go:81-88 | collection never removes a session used within the last ten minutes |
| SessionRuns.TokenResumesExactlyIf | overlay.go:62-79 | an issued token resumes its own positions exactly while its session is in time, and restarts the listing afterwards |
| SessionRuns.AnyTokenResumesExactlyIf | overlay.go:62-79 | any string presented as a token stands for the positions of the session whose number it is a numeral of, if that session is in time, and for the start otherwise |
| SessionRuns.LeadingZeroResumes | overlay.go:66-71 | a token with a leading zero is never handed out and resumes a session all the same |
| SessionRuns.CollectedTokenRestarts | overlay.go:74-88 | the shortest run in which an issued token stands for the start again |
| SessionRuns.SessionsWereIssued | overlay.go:50-60 | every session in the table was created by some event of the run |
| SessionRuns.LiveTokensKeepTheirMeaning | overlay.go:50-79 | no event moves the positions of a live token |
| SessionRuns.SoonIsInTime | overlay.go:13 | a token presented within ten minutes of its creation is in time |
| Growth.GrowingListing | overlay.go:125-283 | with overlay writes between any two backend pages, page ends, failed requests and retries of any token, listed keys strictly increase and exist, and at the end every key present at the start was listed |
| Growth.RunsKeepInvariant | overlay.go:173-267 | the invariant behind it holds in every state of every run, also of every place where a session may be resumed |
| Growth.BackendPagesArePages | remote.go:260-305 | the pages that a store answers with are pages of that machine, of what its bucket holds at the time |
| Growth.FetchIsLoad | overlay.go:175-197 | a fetch of the class's cursor is a load of the machine |
| Growth.LoopStepIsStep | overlay.go:237-267 | every step of the class's merge loop is a step of the machine |
| Growth.RequestsKeepInvariant | overlay.go:237-282 | so a whole request of the class is a run of it and keeps the invariant |
| GrowthRuns.GrowingListingsAreComplete | overlay.go:125-283 | in every history of a server, whatever is written between the pages of a listing, its keys strictly increase, all exist at the last page, and all that existed at the first are listed |
| GrowthRuns.PicksAreSound | overlay.go:217-283 | every page of such a listing leaves it sound, and shows what its loop emitted |
| GrowthRuns.KeysGrow | overlay.go:125-127 | no call takes a key away from a bucket |
| Growth.FetchKeeps | overlay.go:175-197 | fetching a page keeps the listed keys below everything still to come and loses none |
| Growth.EmitKeeps | overlay.go:248-266 | emitting the smaller head keeps the invariant |
| Nesting.OverlaysBack | overlay.go:217-283 | all answers of an overlay store, to requests from the start or with the token of another in time, are pages of one feed, as it expects of the stores it merges |
| Nesting.PendingIsOrdered | overlay.go:217-283 | every such request presents its token in time and has ordered entries to list |
| Nesting.AnswersArePages | overlay.go:217-283 | an answer in time, of a request with ordered entries to list, is a page of that feed, and a truncated one is progress |
| Nesting.FeedAtToken | overlay.go:279-280 | a token of that feed stands for what its session streams |
| Nesting.OverlayFeedIsStable | overlay.go:50-79 | tokens of that feed keep their meaning while the store goes on |
| Nesting.BackendsBack | remote.go:260-305 | the answers of a store on one backend are pages of its feed |
| Nesting.LoopsKeepMerge | overlay.go:173-267 | over any two feeds, fetched in any pages, what is emitted and what both cursors stream is the merge at first |
| Nesting.LoopServes | overlay.go:237-282 | so over any two feeds the merge loop gives a page cut from the merge, and positions that stream the rest |
| Nesting.ExecutionIsAccepted | overlay.go:221-283 | and a request that runs it from known positions is accepted |
| Nesting.ExecutionsAreAccepted | overlay.go:221-283 | so is every request of a session over stores whose answers are pages of feeds |
| Nesting.SessionsBack | overlay.go:90-101 | so an overlay store over such stores is again such a store, to any depth |
| Nesting.ListingsShowMerge | overlay.go:217-283 | a client of such a session that follows tokens lists the merge of both feeds |
| Nesting.StackedListingsShowEverything | overlay.go:90-101 | a client that follows the tokens of an overlay store, which merges the answers of an inner one with those of a third store either way round, lists the map overridden twice |
| Nesting.StackingIsAssociative | overlay.go:90-97 | three layers list the doubly overridden map whichever two are stacked first |
| KeyMapping.MappingIsTransparent | remote.go:258-305 | grouping the physical keys below the backend prefix and unmapping is, in order, grouping the client bucket's own keys |
| KeyMapping.TransparentEntry | remote.go:281-299 | the same entry by entry |
| KeyMapping.UnmapInverts | remote.go:134-156 | a physical key unmaps to a client key of a bucket iff it is the place where that key is stored |
| KeyMapping.MapKeyInjective | remote.go:110-116 | two client keys never share a physical place |
| KeyMapping.PhysicalKeyIs | remote.go:100-132 | where a client key is stored, spelled out: prefix, bucket and key with slashes in between |
| KeyMapping.PrefixSlashesAreIgnored | remote.go:79-83 | slashes at the end of the configured prefix make no difference |
| KeyMapping.MarkerIsHidden | remote.go:397-408 | a directory marker is at no client key's place |
| KeyMapping.WriteIsLocal | remote.go:235-256 | storing under a client key changes that key of that bucket and no other |
| KeyMapping.MarkerWriteIsHidden | remote.go:397-408 | storing a directory marker changes no client bucket |
| KeyMapping.JoinKeyLoop | remote.go:100-108 | the loop joins the non-empty parts with slashes |
| KeyMapping.VisibleContents | remote.go:356-365 | the entries a bucket shows are exactly those stored below its root with a non-empty key |
| KeyMapping.VisibleRest | remote.go:260-299 | behind a physical key a bucket shows exactly its own entries above it |
| KeyMapping.VisibleOrdered | remote.go:281-299 | filtering and unmapping keep a listing strictly ordered |
| S3Store.Store.ListPage | remote.go:260-305 | what a page shows and what remains at its token make up what remained before; a truncated page consumes backend entries |
| S3Store.UnmapVisible | remote.go:281-299 | unmapping objects and prefixes separately is unmapping the page |
| S3Store.Store.ListingFromStart | remote.go:260-305 | from no token, the stream is the client bucket's listing, and nothing if the limit wraps to zero |
| S3Store.Store.Get | remote.go:168-203 | the body is the object or exactly the slice of a range inside it, whether the backend honours the range or not |
| S3Store.SliceIsDelivered | remote.go:190-201 | cutting the slice from a whole answer gives what an honoured range gives |
| S3Store.Store.Head | remote.go:205-221 | the metadata of the client key's object; not found only if there is none |
| S3Store.Store.Put | remote.go:235-256 | stores the body under its client key and changes no other; an unreadable body changes nothing |
| S3Store.Store.CreateBucket | remote.go:397-408 | writes a marker or, addressed one-to-one, creates an empty bucket that did not exist; changes no client key |
| S3Store.Store.ListBuckets | remote.go:307-351 | collects, over all pages, exactly the names recovered from the first-level prefixes |
| S3Store.Store.CollectNames | remote.go:318-350 | the paging loop terminates and misses no prefix |
| Buckets.RootlessBucketsAreListed | remote.go:307-372 | with no key prefix a name is listed iff its bucket has a key or a marker |
| Buckets.PrefixedBucketsAreNeverListed | remote.go:326-372 | with a key prefix no overlay bucket is ever listed |
| Buckets.BucketsAreListedExactlyIf | remote.go:307-372 | the list is right iff no key prefix is configured or there is no bucket |
| Buckets.CreatedBucketIsNotListed | remote.go:326-408 | a created bucket that is not listed |
| Ranges.ParseByteRange | handlers.go:252-302 | a resolved range has a non-negative start, at least one byte and lies inside the object, so int64 never overflows |
| Ranges.FirstLastRange | handlers.go:279-301 | first-last: the positions up to the end of the object; not satisfiable iff it starts past the end or ends before it starts |
| Ranges.OpenRange | handlers.go:279-301 | first-: everything from there on, or not satisfiable |
| Ranges.SuffixRange | handlers.go:264-278 | -n: the last n bytes, the whole object if shorter, not satisfiable if either is empty |
| Ranges.HeaderRoundTrip | store.go:23-32 | parsing the printed form of a range inside an object gives the range back |
| Ranges.RangeIsIgnoredExactlyIf | handlers.go:252-302 | a Range header is ignored iff it has another unit, a comma, no dash, or no numbers where they count |
| Ranges.PrintedRange | handlers.go:279-301 | the first-last form for printed positions |
| Ranges.ContentRangeSays | handlers.go:356-357 | a Content-Range names the first and the last position and the total size as decimal numerals |
| Numbers.ParseUintFormat | overlay.go:59-66 | printing and parsing are inverse on uint64, in every base |
| Numbers.ParseIntFormat | sigv4.go:150-155 | printing and parsing are inverse on the non-negative int64, in every base |
| Numbers.ParseUintExactlyIf | overlay.go:66 | a string parses as a number iff it is its printed form, in either case and with any zeros in front, and fits 64 bits |
| Numbers.ParseIntExactlyIf | handlers.go:266-290 | a signed number is such a numeral with an optional sign, in the range of int64 |
| Numbers.FormatExamples | overlay.go:59 | numerals have their most significant digit first |
| Gateway.Server.GetObject | handlers.go:320-366 | status, headers, Content-Range and bytes are those of one map; a 206 is a part of the object whose bytes, length and Content-Range agree; nothing else with reliable backends |
| Gateway.GetAnswers | handlers.go:304-366 | every answer to a GET: 404, 416, the whole object with 200, or with 206 the bytes its range resolves to, with the object's tag, time and content type |
| Gateway.RangedGetAnswers | handlers.go:320-366 | a GET of printed positions: those bytes that exist, with their Content-Range, or 416 |
| Gateway.HeadAnswers | handlers.go:304-378 | every answer to a HEAD: 404, or size, quoted tag, time and content type |
| Gateway.Server.HeadObject | handlers.go:368-378 | the metadata of one map, or 404; nothing else with reliable backends |
| Gateway.Server.PutObject | handlers.go:380-412 | if the preconditions hold, exactly one key changes, to the body's bytes; otherwise, or on any failure, nothing does; with the wildcard in If-None-Match only an absent key is written; with reliable backends only an unreadable or oversized body fails |
| Gateway.PutAnswersAre | handlers.go:380-412 | every answer to a PUT: what is stored with which content type, that the wildcard never replaces an object, that a tag in If-Match replaces only the object of that tag, and why 412 |
| Refinement.WildcardPutCreates | handlers.go:381-389 | in every step of the single map a PUT with the wildcard writes only where nothing was, and, alone, is refused only where something was |
| Refinement.WildcardPutNeverReplaces | handlers.go:381-389 | over every run such a PUT replaces no object |
| Gateway.Server.Preconditions | handlers.go:381-399 | both headers are decided as on one map; the wildcard lets only absent keys pass and, alone, refuses only present ones |
| Gateway.Server.CopyObject | handlers.go:414-445 | writes the source's bytes and content type under one key, or answers 400 or 404 and changes nothing |
| Gateway.CopyAnswersAre | handlers.go:414-445 | every answer to a copy: the source's bytes and content type under the key, or 404 only if there is no source |
| Refinement.CopyWritesSource | handlers.go:414-445 | in every step of the single map a copy writes what the object named by its header holds |
| Refinement.CopyFromNothing | handlers.go:415-422 | a header that names no object is refused with 400 and changes nothing |
| Gateway.CopySourceExactlyIf | handlers.go:415-422 | a header stands for a bucket and a key iff it is bucket, slash and key, with or without a slash in front and a query behind |
| Gateway.CopySourceIsNoneExactlyIf | handlers.go:415-422 | and for nothing iff it names no object |
| Gateway.Server.CreateBucket | handlers.go:147-153 | changes no key of any bucket |
| Gateway.CopySource | handlers.go:415-422 | an accepted copy source has a slash-free bucket and a non-empty key |
| Gateway.TrimQuoted | handlers.go:390-398 | the quoted form in which a tag is handed out matches it as a precondition |
| Gateway.TrimQuotesIs | handlers.go:396 | trimming takes off all quotes on either side and nothing else |
| Gateway.IfMatchIsHonouredExactlyIf | handlers.go:390-399 | a list of tags in If-Match is decided as RFC 9110 asks for iff it has one tag or none of them is the object's |
| Gateway.IfMatchWildcardIsHonouredExactlyIf | handlers.go:390-399 | the wildcard is honoured iff there is no object or its tag is an asterisk |
| Gateway.IfNoneMatchIsHonouredExactlyIf | handlers.go:381-389 | tags in If-None-Match are honoured iff none of them is the object's |
| Gateway.WildcardIsRefused | handlers.go:390-399 | a write that RFC 9110 allows and the gateway refuses |
| Refinement.Serve | handlers.go:90-128 | each operation, with its answer, is one step of a single map from bucket and key to object |
| Refinement.ServeAll | handlers.go:62-128 | so is every sequence of operations: the answers and the states are a run of that map, and with reliable backends only bodies that cannot be stored fail |
| Refinement.OnlyWritesChangeKeys | overlay.go:103-127 | over every run only a successful write of a key changes it, and no object disappears |
| Refinement.ReadsSeeLastWrite | overlay.go:103-127 | a GET answers with the bytes, the tag and the content type of the last successful PUT of its key, for every Range header, unless a backend fails |
| Refinement.WriteRefines | remote.go:110-116 | each physical write updates one key of the represented map, a marker none |
| Refinement.GatewayRefinesOneMap | remote.go:100-116 | so does every sequence of physical writes, whatever foreign keys the bucket holds |
| Refinement.Abstraction | overlay.go:90-123 | the represented map holds exactly the objects that the merged views show |
| ServerRuns.ListingShowsHeads | overlay.go:114-283 | a listing without prefix and delimiter shows a key as an object iff HEAD finds it, with the same size, tag and time |
| Protocol.RoutedNamesAreValid | protocol.go:56-119 | object operations see only slash-free non-empty buckets and non-empty keys |
| Protocol.EveryObjectIsAddressable | protocol.go:56-64 | every bucket and key can be addressed, odd slashes included |
| Protocol.EveryBucketIsAddressable | protocol.go:56-64 | a path without a key addresses a bucket, with or without a slash behind |
| Protocol.ServiceRootExactlyIf | protocol.go:56-72 | a path addresses no bucket iff it is empty, a slash, or begins with two |
| Chunked.AwsChunkedReader.Read | sigv4.go:140-182 | a read returns exactly what it takes off the rest of the payload; an error comes only with nothing left, and only one that the body calls for |
| Chunked.AwsChunkedReader.ReadChunk | sigv4.go:163-181 | the same inside a chunk and across its line end |
| Chunked.ReadAll | sigv4.go:140-182 | for all buffer sizes and short reads the bytes returned are what the body decodes to |
| Chunked.DecodeFramed | sigv4.go:140-182 | a framed body with any sizes decodes to the payload in front of the first negative size, and ends regularly iff there is none |
| Chunked.SliceOutOfRangeExactlyIf | sigv4.go:152-167 | a framed body makes the reader slice out of range iff it announces a negative size |
| Chunked.NegativeSizeIsAccepted | sigv4.go:152-167 | the shortest such body |
| Chunked.DecodeEncode | sigv4.go:125-182 | a body of positive sizes decodes to the payload it frames, however chunked and extended, and ends regularly |
| Chunked.BareNewlineIsAccepted | sigv4.go:146-150 | a chunk header may end in a newline alone |
| Chunked.InvalidSizeIsReported | sigv4.go:150-155 | a size that is no number is an error of its own |
| Chunked.PrintedSizeIsHeader | sigv4.go:150-155 | sizes printed in hexadecimal are valid headers |
| Chunked.DecodeTruncated | sigv4.go:140-182 | a cut body decodes to a beginning of what the whole decodes to |
| Chunked.TruncatedBodyYieldsPrefix | sigv4.go:140-182 | from any truncation of a well-formed body only a beginning of the payload is returned |
| Chunked.TruncationIsNoticedExactlyIf | sigv4.go:146-173 | the exact set of ends of a body cut anywhere: regular behind the final header, its source's own end before, and an unexpected EOF only for a cut behind the last byte of a chunk |
| Chunked.ChunkEnds | sigv4.go:168-173 | those cuts are the ends of the data of the first k chunks |
| Chunked.CutBodyIsAccepted | sigv4.go:146-173 | a cut body that ends regularly with its second byte lost |
| Chunked.TruncationLosesDataExactlyIf | sigv4.go:140-182 | the payload is still complete iff no payload byte was cut off |
| Chunked.HashVerifyingReader.Read | sigv4.go:184-203 | a clean end is reported only if everything read has the expected digest, and any other end of the source passes |
| Chunked.PutBody | remote.go:223-233 | buffering a body succeeds, with exactly its bytes, iff it comes to its end and its digest is the signed one |
| Uploads.UploadAndGet | handlers.go:320-412 | a framed PUT and a GET of it: a beginning of the payload, all of it iff no payload byte was cut off; a body cut short is stored if its source ends regularly |
| Canonical.AwsEncodeLoop | sigv4.go:362-380 | the builder loop encodes every byte |
| Canonical.EncodedByteIs | sigv4.go:362-380 | the unreserved characters of RFC 3986, by their codes, stay, every other byte becomes a percent sign and two upper-case digits |
| Canonical.AwsEncodeConcat | sigv4.go:362-380 | encoding works byte by byte |
| Canonical.DecodeEncode | sigv4.go:362-380 | percent-decoding inverts the encoding on all byte strings |
| Canonical.AwsEncodeInjective | sigv4.go:362-380 | distinct byte strings have distinct encodings |
| Canonical.CanonicalURIInjective | sigv4.go:328-339 | two paths have the same canonical form iff they are equal or are the empty path and "/" |
| Canonical.CanonicalPathIs | sigv4.go:328-339 | a canonical path keeps every slash and encodes every other byte; the empty path stands for "/" |
| Canonical.CanonicalQueryLoop | sigv4.go:341-360 | the loop over the sorted keys builds the canonical form |
| Canonical.CanonicalQueryExample | sigv4.go:341-360 | keys in byte order, the least value kept, "=" and "&" in between |
| Canonical.SameCanonicalExactlyIf | sigv4.go:341-360 | two queries have the same canonical form iff they agree in their keys and in the least value of each |
| Canonical.CanonicalQueryStringInjective | sigv4.go:341-360 | so two single-valued queries have the same canonical form iff they are equal |
| Canonical.OtherValuesAreLost | sigv4.go:355-357 | two queries that differ in a second value and have the same canonical form |

## Left out

- Growth.GrowingListing: speaks of the keys listed, not of their metadata, which may be stale when an object is overwritten during its listing.
- GrowthRuns.GrowingListingsAreComplete: writes come between the calls of a history; writes between two backend pages of one call are steps of `Growth.GrowingListing` only, since a method call is sequential.
- SessionRuns.NumbersAreNeverReused: for runs of fewer than 2^64 events, after which the counter of the code wraps.
- Nesting.StackedListingsShowEverything: stacked stores are runs of requests and loops, not nested objects, which would need a common interface for both kinds of store; the inner store answers all requests, although an outer one takes an inner overlay whose baseline bucket is missing for empty.
- Refinement.ServeAll: operations run one after another; the code gives no atomicity between the Head and the Put of a conditional write, nor between the Head and the Get of a ranged GET, under concurrent writers.
- Gateway.Server.GetObject: a body that breaks off while it is passed on is a backend failure; what part of it was written by then is not modelled.
- Canonical.AwsEncodeLoop: characters below 256, since they stand for bytes.
- S3Store.Store.Put: the time reported for a write is the gateway's clock, which no property uses; the backend chooses the stored one.
- S3Service: failures of a backend are few kinds of error; their translation into S3 error codes and HTTP statuses (handlers.go:25-88) is one answer, `BackendFailure`. Quotes around the tags that backends return are already stripped.
- handlers.go:192-241: only the limit parameter of the list handler and not its XML answer; the listing itself is `OverlayStore.ListPage`.
- sigv4.go:54-66: the declared decoded length, which is only checked to be a number and never compared with the data.
- Signature verification (sigv4.go:209-326), SHA-256, HMAC and MD5: a chain of early returns and library functions; the digest is an arbitrary function here.
- Multipart uploads, HeadBucket, location and metadata queries, BucketExists, EnsureBucket: delegation and constant answers.
- main.go, logger.go, s3xml.go, the AWS SDK, retries and the network.
