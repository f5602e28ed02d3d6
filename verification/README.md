# Postio: single-flight tokens, repository gates and the model boundary, verified

A Dafny model of the parts of Postio whose correctness depends on interleavings, on recursion or on
an argument no single body shows. It covers, one module each:

| module | what it is about |
|---|---|
| `SingleFlight` | one run of the work per key, its outcome shared, over every interleaving and cancellation |
| `BrokerTokens` | the token cache over it: conservation of broker runs, and what `invalidate` really promises |
| `Credentials` | `with_credential`, any number of calls over one source: the stampede bound |
| `CrateBoundaries` | the breadth-first search that stops at banned crates and still decides reachability |
| `CoverageSets` | proposals of redundant cases, and when they may be acted on together |
| `PathGlobs` | GitHub path globs compiled to regular expressions, and lists of them |
| `YamlReader` | the indentation-based reader with anchors and aliases |
| `Workflows` | both together: a workflow file is read and its filters say whether a change schedules it |
| `DataFence` | the fence around third-party text |
| `RustTokens` | what the comments and literals of a Rust text are, said without scanning it |
| `Blanking` | the scan that blanks them in place, and exactly where it reads Rust right |
| `TestItems` | the spans of a blanked file that are compiled only for tests |
| `AnswerSchema` | one declaration used as a JSON Schema and as a local check |
| `QuoteSpans` | a byte search answered in characters |
| `BackOff` | how long an unreachable runtime is left alone |

`dafny verify dfyconfig.toml` checks everything.

## How it is modelled

**The token protocol is three step systems, one on top of the other.** A step of `SingleFlight` is
what a thread does between two points where another may get in (a lock released) or the caller may
go away (an await). A leader leaves the registry and publishes in two steps, and a cancelled leader
drops its guard and its sender in two steps, so other calls come in between. `FinishWork` takes any
outcome: the work is arbitrary. `BrokerTokens` says what the work is (check the cache again, run the
broker, store its answer) and every one of its steps is a step of `SingleFlight` or leaves it alone
(`FlightsStepToo`); `Credentials` puts sessions on top in the same way. The classes
`SingleFlight.Registry` and `BrokerTokens.Source` hold the fields the Rust types hold, and each of
their methods is one critical section, proved to take exactly its step. A tally of what was stored,
removed and overwritten is kept for the proofs; so is the number of the broker run in each token.

Facts taken as given about the platform: a mutex guards one critical section at a time;
`watch::Sender::send` reaches every receiver that still exists (with none it may store nothing, which
nobody can see); `changed()` reports an unseen value before it reports that the sender is gone; the
locals of a dropped future are dropped before its arguments; a panic in the work ends a leader as a
cancellation does.

**Loops are loops.** The Python functions that update variables are methods with invariants, proved
against functions or predicates whose own properties are proved: `FindViolations`, `Candidates`,
`PatternToRegex`, `EvaluatePatterns`, the methods of `Reader`, `FreshNumber`, `BlankNoise` (over an
array) and `TestRegions`. `Workflows.Schedule` runs a `Reader` over a file and applies the filters to
what it read.

## Where the code and its documentation part

* `TokenSource::invalidate` is documented as making the next `access_token` re-obtain
  (crates/postio-account/src/auth.rs:53-57). `BrokerTokenSource` does not always:
  a broker run that started before the invalidation puts its token in the cache after it, and a
  leader that holds its token shares it with an ask that starts after the invalidation.
  `RunningBrokerBreaksPromise` and `HeldTokenBreaksPromise` are two runs from the start in which that
  happens, and `InvalidationIsHonouredUnlessInFlight` proves that these are the only cases: the
  promise holds, in every continuation, exactly when no token of the account is in flight at that
  moment.
* `test-coverage-sets.py` proposes removals "never a verdict". The `subset` proposals turn out to be
  sound together (`ReportIsJointlySound`); together with the `no-own-crate-coverage` ones they are not
  (`RemovingEverythingCanLose`), and `RemovingEverythingReported` says exactly when they are.
* `**` is compiled to `.*`, which stops at a newline. A pattern means what it says on every path exactly
  when it has no two stars together (`CompilationIsExactWithoutStars`), and a path is read right under
  every pattern exactly when it is one line (`CompilationIsExactOnOneLine`).

* `blank_noise` is documented as replacing comments and literals by spaces. A char literal that is an
  escaped quote ends one character early for it, so that what follows can be taken for a literal
  and a brace inside the next one be kept (`BraceSurvivesEscapedQuote`); a raw C string is taken for a
  short string and code (`BraceSurvivesRawCString`). `ScanIsRightUnlessMisread` proves these two, and an
  opening with more hashes than Rust has, to be the only cases.
* `test_regions` is documented as ending a span with the item. It takes the first semicolon or brace,
  one inside an array type too (`BodyIsLeftOut`); `ItemIsFoundIfHeadIsPlain` says exactly when it is right.
* `with_credential` is documented as giving a call one retry, and does. Calls that share an expired
  token still make each other's tokens short-lived: each throws out the fresh one that the call
  before it was let in with, and the broker is run once for every call (`StampedeIsReached`).

## Model

| member | source | states |
|---|---|---|
| SingleFlight.InvStep | crates/postio-account/src/single_flight.rs:65-131 | Every step, cancellation at any await included, keeps the invariant: a channel says what its leader did, a guard holder's key maps to its own channel, an entry has a live guard holder |
| SingleFlight.RunKeepsInv | crates/postio-account/src/single_flight.rs:81-131 | The invariant holds at every point of every run of any number of calls |
| SingleFlight.RegistryIsTheLiveLeaders | crates/postio-account/src/single_flight.rs:87-97 | A key is registered exactly when one live leader holds its guard; that leader is the only one and the stored channel is its own |
| SingleFlight.LeavingEvictsOnlyItself | crates/postio-account/src/single_flight.rs:65-72 | However a leader ends, dropping its guard removes its own entry and no other call's |
| SingleFlight.RunsNeverOverlap | crates/postio-account/src/single_flight.rs:1-8 | Two runs of a key's work overlap only if a leader of the key was cancelled unanswered, and one of them is an orphan's |
| SingleFlight.OverlapNeedsAForsakenCall | crates/postio-account/src/single_flight.rs:87-113 | With no caller going away any more, two runs of a key's work may yet overlap exactly when one of its calls is orphaned or follows a leader cancelled unanswered |
| SingleFlight.OverlapsHappen | crates/postio-account/src/single_flight.rs:108-112 | From the start, two calls of a key come to where no overlap can follow; after the leader is cancelled, one can |
| SingleFlight.WorkIsCounted | crates/postio-account/src/single_flight.rs:87-113 | In every run the work is started once per flight formed plus once per orphaned follower |
| SingleFlight.OutcomesAreTheLeaders | crates/postio-account/src/single_flight.rs:99-113 | A shared outcome is the one its leader sent, failures too; only a cancelled leader orphans a follower |
| SingleFlight.PublishedReachesEveryFollower | crates/postio-account/src/single_flight.rs:103-113 | After a send every follower not cancelled has the outcome or gets it at its next look |
| SingleFlight.AtMostTwoLooks | crates/postio-account/src/single_flight.rs:103-113 | The loop takes at most two turns |
| SingleFlight.SharedMeansOverlapping | crates/postio-account/src/single_flight.rs:75-80 | A call that returns a shared outcome arrived while its leader was registered: this is no cache |
| SingleFlight.LateCallsNeverShare | crates/postio-account/src/single_flight.rs:125-129 | A call that arrives after a leader left never returns what that leader sent |
| SingleFlight.ChannelsStay | crates/postio-account/src/single_flight.rs:87-101 | Over a whole run a call keeps its key and channel, and a channel its key and leader |
| SingleFlight.RunsAreBounded | crates/postio-account/src/single_flight.rs:99-131 | A run with m calls has at most 5m steps |
| SingleFlight.SomebodyCanMove | crates/postio-account/src/single_flight.rs:21-28 | No call is stuck: it can take a step, or the live leader it waits for can |
| SingleFlight.CallsAreAccountedFor | crates/postio-account/src/single_flight.rs:58-131 | In every run: a call that is gone had its caller go away, and an outcome a call did not get from its leader is the one its own work ended with |
| SingleFlight.FinishedWorkIsKept | crates/postio-account/src/single_flight.rs:109-131 | Work that ends is not thrown away: from then on its call has that outcome, and answers with it |
| SingleFlight.EverybodyIsAnswered | crates/postio-account/src/single_flight.rs:75-113 | In every run that has come to rest each call whose caller stayed has an outcome that work for its key ended with: its leader's, or its own if the leader's caller went away |
| SingleFlight.AwaitsCanBeCancelled | crates/postio-account/src/single_flight.rs:58-72 | A call under way can be cancelled exactly unless a step without an await is next |
| SingleFlight.Registry.Arrive | crates/postio-account/src/single_flight.rs:87-97 | The look-up and the claim are one step: join the registered channel, or register a new one and lead |
| SingleFlight.Registry.FinishWork | crates/postio-account/src/single_flight.rs:109-124 | The work ends: a leader has the outcome and keeps its guard, an orphan answers with it |
| SingleFlight.Registry.Leave | crates/postio-account/src/single_flight.rs:65-72 | The guard's drop removes the key and nothing else |
| SingleFlight.Registry.Send | crates/postio-account/src/single_flight.rs:129-129 | The outcome is published after the leader left |
| SingleFlight.Registry.Return | crates/postio-account/src/single_flight.rs:130-131 | The leader answers with its own outcome and its sender goes |
| SingleFlight.Registry.Look | crates/postio-account/src/single_flight.rs:104-107 | A follower returns what was published, or remembers having seen nothing |
| SingleFlight.Registry.Wake | crates/postio-account/src/single_flight.rs:108-112 | `changed()` fails exactly for a channel closed with nothing sent, and then the caller does the work |
| SingleFlight.Registry.Cancel | crates/postio-account/src/single_flight.rs:58-72 | A cancelled leader leaves the registry; a cancelled follower leaves no trace |
| SingleFlight.Registry.DropSender | crates/postio-account/src/single_flight.rs:116-131 | The sender of a cancelled leader goes after its guard |
| BrokerTokens.FlightsStepToo | crates/postio-account/src/auth.rs:207-228 | Every step of the source is a step of the flights, or leaves them alone |
| BrokerTokens.InvStep | crates/postio-account/src/auth.rs:195-236 | Every step keeps the books of every account and the link between stages and running work |
| BrokerTokens.BrokerRunsAreConserved | crates/postio-account/src/auth.rs:205-236 | In every run: tokens stored = tokens invalidated + tokens overwritten + the cached one; no more are overwritten than orphans stored, and orphans stored none if no leader of the account was cancelled |
| BrokerTokens.OverwritingIsUnbounded | crates/postio-account/src/auth.rs:217-225 | For every n a run from the start in which orphans store n tokens and overwrite one with each: the bound is reached |
| BrokerTokens.StoreBalances | crates/postio-account/src/auth.rs:220-225 | Storing over a token is paid for by an orphan's run |
| BrokerTokens.FreshRun | crates/postio-account/src/auth.rs:207-235 | If nothing old is on its way, nothing old ever reaches a later ask |
| BrokerTokens.InvalidationIsHonouredUnlessInFlight | crates/postio-account/src/auth.rs:53-58 | Every later ask gets a token of a later broker run, in every continuation, exactly when no token of the account is in flight at the invalidation |
| BrokerTokens.RunningBrokerIsStale | crates/postio-account/src/auth.rs:217-225 | A continuation in which a broker run older than the invalidation answers an ask newer than it |
| BrokerTokens.HeldTokenIsStale | crates/postio-account/src/single_flight.rs:124-129 | A continuation in which a leader that already has its token shares it with an ask newer than the invalidation |
| BrokerTokens.RunningBrokerBreaksPromise | crates/postio-account/src/auth.rs:217-235 | A run from the start: the cache is emptied while a broker runs, and a later ask is answered with what that run printed |
| BrokerTokens.HeldTokenBreaksPromise | crates/postio-account/src/single_flight.rs:124-129 | A run from the start: the cache is emptied while a leader still holds its guard over its token, and a later ask joins it and gets that token |
| BrokerTokens.BreakIsOneRun | crates/postio-account/src/auth.rs:53-58 | Either is one run: the events before, the invalidation, the events after |
| BrokerTokens.AnswersComeFromTheBroker | crates/postio-account/src/auth.rs:205-228 | In every run an ask answered with a token was answered with what the broker, run for its account, printed in that very run; one answered with a failure, after the broker, run for its account, failed |
| BrokerTokens.AsksAnswerWithTheirCalls | crates/postio-account/src/auth.rs:211-228 | An ask that went into a flight is answered with what its call came to |
| BrokerTokens.EventsAreConserved | crates/postio-account/src/auth.rs:205-236 | The same conservation, told by the events of a run alone |
| BrokerTokens.Source.LookUp | crates/postio-account/src/auth.rs:195-210 | The first check of the cache answers or misses |
| BrokerTokens.Source.Enter | crates/postio-account/src/auth.rs:211-212 | A miss goes into the flight, to lead or to follow |
| BrokerTokens.Source.Check | crates/postio-account/src/auth.rs:213-220 | The second check ends the work with the cached token, or the broker is started |
| BrokerTokens.Source.BrokerFails | crates/postio-account/src/auth.rs:220-220 | A broker failure ends the work and leaves the cache alone |
| BrokerTokens.Source.BrokerAnswers | crates/postio-account/src/auth.rs:220-220 | The broker's answer is held and not yet stored |
| BrokerTokens.Source.Store | crates/postio-account/src/auth.rs:221-225 | The answer goes into the cache and is the outcome |
| BrokerTokens.Source.Invalidate | crates/postio-account/src/auth.rs:230-235 | The account's token is gone, and nothing else changes |
| Credentials.InvStep | crates/postio-account/src/auth.rs:93-116 | Every step keeps each call's rules and the removals within the invalidations |
| Credentials.StampedeIsBounded | crates/postio-account/src/auth.rs:65-116 | Any number of calls over one source: at most two attempts each, the second after a rejection and with other bytes; removals within invalidations, those within rejections, those within calls; successful broker runs at most one more than rejections plus orphans' runs, and plus none without a cancelled leader |
| Credentials.StampedeIsReached | crates/postio-account/src/auth.rs:93-116 | For every n a run from the start, nobody cancelled, in which n calls present one expired token, make 2n attempts and n removals and have the broker run n + 1 times: each throws out the token the one before it was let in with |
| Credentials.WithCredential | crates/postio-account/src/auth.rs:93-116 | What was presented, whether the cache was told, and the ending, each from the four awaits: the server's word on the first unless that is a rejection, its word on a different second, the rejection for want of one, or no credential |
| Credentials.SessionsEndRightly | crates/postio-account/src/auth.rs:93-116 | In every run a call that ended with the server's word ended with its last word, and after a first rejection only by a second attempt or because the next credential was the same; one that ended with no credential was refused one |
| Credentials.PresentedWasPrinted | crates/postio-account/src/auth.rs:103-115 | In every run, whatever a call presents the broker printed for its account |
| CrateBoundaries.FindViolations | scripts/checks/check-crate-boundaries.py:969-1035 | Fails exactly when no workspace member has the name, and guards the first that has; reports exactly the banned crates that a chain of dependencies meets first, each with a shortest such chain; said of the search's steps, and of the metadata alone |
| CrateBoundaries.ExactMeansExactOnMetadata | scripts/checks/check-crate-boundaries.py:1007-1033 | On the metadata alone: a dependency counts if no kind is listed, or a normal or a build one, or a dev one of the guarded crate if those count; a step is shown as normal before build before dev |
| CrateBoundaries.SilenceOnMetadata | scripts/checks/check-crate-boundaries.py:1007-1033 | Nothing is reported exactly when no chain of dependencies that count reaches a banned crate |
| CrateBoundaries.DirectSilenceOnMetadata | scripts/checks/check-crate-boundaries.py:1028-1033 | Of the crate's own list, nothing exactly when no own dependency that counts is banned |
| CrateBoundaries.NextPackage | scripts/checks/check-crate-boundaries.py:1002-1006 | One turn of the loop keeps the search's invariant and comes nearer to its end |
| CrateBoundaries.Examine | scripts/checks/check-crate-boundaries.py:1007-1033 | One dependency is settled: reported, seen, or not allowed |
| CrateBoundaries.CleanWalksAreSeen | scripts/checks/check-crate-boundaries.py:1002-1033 | Every path through unbanned crates leads to a package seen under no longer a path |
| CrateBoundaries.SilenceMeansUnreachable | scripts/checks/check-crate-boundaries.py:1028-1030 | Though banned crates are not walked into, nothing is reported exactly when no banned crate is reachable at all |
| CrateBoundaries.ReportedPathsAreClean | scripts/checks/check-crate-boundaries.py:1010-1033 | On a reported path only the first edge can be a dev one, and only if the guarded crate's own count; only the last crate is banned, and none is the hack |
| CoverageSets.Candidates | scripts/test-coverage-sets.py:74-102 | The report holds one right line for each case that gets one, in report order |
| CoverageSets.SubsumedByEnds | scripts/test-coverage-sets.py:84-95 | Following `subsumed_by` from any case ends at one not proposed as a subset, that costs no more and runs everything the first did |
| CoverageSets.RemovingSubsetsLosesNothing | scripts/test-coverage-sets.py:2-13 | All subset proposals removed at once, the rest executes all that was executed |
| CoverageSets.ReportIsJointlySound | scripts/test-coverage-sets.py:93-95 | So may every subset line of a report be acted on at once |
| CoverageSets.RemovingEverythingReported | scripts/test-coverage-sets.py:81-95 | With the no-own-crate lines removed too, nothing is lost exactly when the unreported cases run what those ran |
| CoverageSets.RemovingEverythingCanLose | scripts/test-coverage-sets.py:81-95 | A suite in which everything is reported and removing it loses a region |
| CoverageSets.SubsumingComesEarlier | scripts/test-coverage-sets.py:84-92 | Subsumption grows the set, or keeps it and comes earlier in keeper order |
| CoverageSets.KeeperOrder | scripts/test-coverage-sets.py:63-66 | Keeper order is total and strict |
| CoverageSets.First | scripts/test-coverage-sets.py:94-94 | The chosen case is the first of all that subsume |
| CoverageSets.SortingIsRight | scripts/test-coverage-sets.py:97-101 | Sorting the report keeps every line and puts them in order |
| CoverageSets.ReportIsAboutTheFiles | scripts/test-coverage-sets.py:59-95 | On the files alone: which cases have a line, which kind it is, how many regions it counts and which other case it names |
| CoverageSets.ReportIsInOrder | scripts/test-coverage-sets.py:97-102 | Subset lines first, the longest-running first among them, then by name; an unknown duration counts as nothing |
| CoverageSets.CitesSpecMeansSlash | scripts/test-coverage-sets.py:63-66 | A case cites a spec item exactly when its references hold a slash |
| PathGlobs.PatternToRegex | scripts/checks/ci-expected-workflows.py:214-236 | The index loop writes an expression that matches only what the pattern means, and all of it that is one line |
| PathGlobs.CompilationIsExactWithoutStars | scripts/checks/ci-expected-workflows.py:214-236 | A pattern is compiled with its meaning on every path exactly when it has no two stars together |
| PathGlobs.MatchedBreaks | scripts/checks/ci-expected-workflows.py:219-232 | A path that is matched has no more newlines just before a slash than the pattern has pieces |
| PathGlobs.CompilationIsExactOnOneLine | scripts/checks/ci-expected-workflows.py:219-228 | A path is read right under every pattern exactly when it is one line |
| PathGlobs.EvaluatePatterns | scripts/checks/ci-expected-workflows.py:239-248 | Compiling and matching in order gives the polarity of the last pattern that hits; on a path of one line, or if no pattern has two stars together, of the last whose meaning holds |
| PathGlobs.ListMeansItsGlobs | scripts/checks/ci-expected-workflows.py:239-248 | A list is evaluated with its meaning on every path of one line, and on every path at all if no pattern in it has two stars together |
| PathGlobs.ListsAreExactOnOneLine | scripts/checks/ci-expected-workflows.py:239-248 | A path is judged right by every list exactly when it is one line |
| PathGlobs.OnePatternMore | scripts/checks/ci-expected-workflows.py:239-248 | A pattern that matches lets a path in, one with `!` before what matches keeps it out, one that does not match changes nothing |
| Workflows.RunsForSomePath | scripts/checks/ci-expected-workflows.py:264-292 | A change schedules a workflow exactly when one of its paths alone would |
| Workflows.RunsIsMonotone | scripts/checks/ci-expected-workflows.py:286-292 | More changed paths never unschedule a workflow |
| Workflows.Schedule | scripts/checks/ci-expected-workflows.py:196-199 | A file is read for its four keys; it cannot be read, or is scheduled exactly when what it says lets the change in |
| Workflows.RunsWhenItShould | scripts/checks/ci-expected-workflows.py:264-292 | From the entries alone: something changed, pull requests trigger it, and if that is a mapping the base branch passes `branches` and `branches-ignore`, and some changed path `paths`, or without it, `paths-ignore` |
| Workflows.ScheduledAsWritten | scripts/checks/ci-expected-workflows.py:196-292 | The same of a printed file, whose keys differ at every level: what is written under its `on` decides |
| Workflows.AliasesScheduleAsWrittenOut | scripts/checks/ci-expected-workflows.py:138-156 | A file with anchors and aliases is scheduled by the same changes as the file with every aliased value written out; it cannot be read exactly when an alias has no anchor |
| Workflows.JobsDoNotMatter | scripts/checks/ci-expected-workflows.py:159-193 | Files that differ only under the keys stepped over are scheduled alike |
| YamlReader.Reader.Parse | scripts/checks/ci-expected-workflows.py:102-109 | A block at an indentation or deeper, as the recursive reading has it, position and anchors included |
| YamlReader.Reader.Sequence | scripts/checks/ci-expected-workflows.py:111-119 | The items at one indentation, and no line more |
| YamlReader.Reader.Mapping | scripts/checks/ci-expected-workflows.py:121-136 | The mapping at one indentation, its errors included |
| YamlReader.Reader.ValueAfter | scripts/checks/ci-expected-workflows.py:138-156 | What follows a key, its alias looked up and its anchor set |
| YamlReader.Reader.Document | scripts/checks/ci-expected-workflows.py:159-186 | The wanted top-level keys, the rest stepped over |
| YamlReader.Reader.SkipBlock | scripts/checks/ci-expected-workflows.py:188-193 | Everything deeper than the top level is stepped over |
| YamlReader.MappingRoundTrip | scripts/checks/ci-expected-workflows.py:121-156 | Reading a printed mapping, children strictly deeper, gives its meaning and stops where the print did; it fails only at an alias with no anchor |
| YamlReader.DistinctKeysAreKept | scripts/checks/ci-expected-workflows.py:121-156 | A printed mapping whose keys differ at every level reads as it is written: every key with its value, in order, at every depth |
| YamlReader.DocumentsAreProper | scripts/checks/ci-expected-workflows.py:121-186 | Whatever the lines, what is read has no key twice at any level |
| YamlReader.PutSets | scripts/checks/ci-expected-workflows.py:135-135 | Setting a key sets it in its place or at the end, and no other |
| YamlReader.DeeperLineIsRefused | scripts/checks/ci-expected-workflows.py:127-128 | A line deeper than the mapping, after a value on its key's line, is refused |
| YamlReader.AliasesReadAsWrittenOut | scripts/checks/ci-expected-workflows.py:140-156 | A mapping with anchors and aliases reads as the one with every aliased value written out again |
| YamlReader.DocumentsReadAsWrittenOut | scripts/checks/ci-expected-workflows.py:140-193 | So does a whole document, whatever stands under the keys stepped over |
| YamlReader.DocumentRoundTrip | scripts/checks/ci-expected-workflows.py:159-193 | A document reads as its wanted sections, whatever stands under the others |
| YamlReader.BlocksConsumeLines | scripts/checks/ci-expected-workflows.py:102-136 | A block read without consuming a line is empty |
| DataFence.FreshNumber | crates/postio-ai/src/client.rs:289-292 | The number is the least unused one, and at most the length less five, or none of the `u32`s is left |
| DataFence.Fence | crates/postio-ai/src/client.rs:287-294 | The data is fenced with that number and comes back out of it |
| DataFence.UsedNumbersNeedRoom | crates/postio-ai/src/client.rs:290-292 | k numbers used need k + 5 characters: no two markers end at the same place |
| DataFence.FenceOpensBackUp | crates/postio-ai/src/client.rs:287-294 | Reading the number off the first line and cutting at its first closing line gives the data back |
| DataFence.FencingIsInjective | crates/postio-ai/src/client.rs:287-294 | No two texts are fenced alike |
| Blanking.BlankNoise | scripts/checks/check-no-gtk-init-in-unit-tests.py:102-192 | Every stretch the scan comes to becomes spaces and every other character is kept; and these stretches are the comments, literals and lone quotes of the text read as Rust, if it comes to no place that it misreads |
| Blanking.ScanIsRightUnlessMisread | scripts/checks/check-no-gtk-init-in-unit-tests.py:102-192 | For every text: the stretches overwritten are its comments and literals, each to its end, if and only if no place outside their insides is misread |
| Blanking.PlaceIsReadUnlessMisread | scripts/checks/check-no-gtk-init-in-unit-tests.py:121-188 | At every place of every text the scan sees what Rust has there, if and only if no escaped-quote literal, `cr` string or opening wider than the window is there |
| Blanking.RustRawStringsFit | scripts/checks/check-no-gtk-init-in-unit-tests.py:149-150 | A raw string with prefix `r` or `br` and at most 255 hashes is never misread: the window is wide enough |
| Blanking.TextIsReadInOneWay | scripts/checks/check-no-gtk-init-in-unit-tests.py:102-110 | Every text has one reading as comments, literals, lone quotes and code |
| Blanking.BlockCommentEnd | scripts/checks/check-no-gtk-init-in-unit-tests.py:131-147 | The loop over a block comment ends at its first return to depth zero |
| Blanking.StringEndIsFirst | scripts/checks/check-no-gtk-init-in-unit-tests.py:160-173 | The loop over a string ends with the first quote that is not escaped |
| Blanking.BraceSurvivesEscapedQuote | scripts/checks/check-no-gtk-init-in-unit-tests.py:178-181 | A text of eight characters in which the escaped quote is misread and the brace in the next char literal is kept |
| Blanking.BraceSurvivesRawCString | scripts/checks/check-no-gtk-init-in-unit-tests.py:149-158 | A raw C string whose brace is kept |
| Blanking.Blank | scripts/checks/check-no-gtk-init-in-unit-tests.py:115-118 | A stretch becomes spaces, newlines aside, and nothing else changes |
| Blanking.NoiseAt | scripts/checks/check-no-gtk-init-in-unit-tests.py:121-188 | Where the comment or literal at a place ends: what is found is what Rust has there, exactly where the place is not misread |
| Blanking.BlankingIsIdempotent | scripts/checks/check-no-gtk-init-in-unit-tests.py:102-110 | Length and newlines kept, other characters changed only to spaces, no quote or comment opener left, and nothing to do a second time |
| TestItems.TestRegions | scripts/checks/check-no-gtk-init-in-unit-tests.py:195-276 | The spans are in bounds, in order and apart, each from a test attribute on; each ends with the attribute's item if no semicolon or brace stands in brackets of the item's head; no test attribute is missed but inside an attribute stepped over or after one that is never closed, and no span starts there |
| TestItems.ItemIsFoundIfHeadIsPlain | scripts/checks/check-no-gtk-init-in-unit-tests.py:231-252 | The brace or semicolon found is the item's own if and only if none stands in parentheses or square brackets before it |
| TestItems.BodyIsLeftOut | scripts/checks/check-no-gtk-init-in-unit-tests.py:195-203 | A function with an array type in its head, whose body is left out of its span |
| TestItems.MatchBracket | scripts/checks/check-no-gtk-init-in-unit-tests.py:212-223 | The bracket-matching loop finds the closing bracket, or the end of the text |
| TestItems.FindItem | scripts/checks/check-no-gtk-init-in-unit-tests.py:233-252 | The item an attribute decorates: the first brace or semicolon that is in no attribute |
| TestItems.CloseIsFirstReturn | scripts/checks/check-no-gtk-init-in-unit-tests.py:263-272 | That bracket is the first return to depth zero |
| TestItems.BracedSpansEndAtDepthZero | scripts/checks/check-no-gtk-init-in-unit-tests.py:195-203 | A test module's span ends exactly where its braces close |
| AnswerSchema.BelievedIsValid | crates/postio-ai/src/schema.rs:83-190 | Every answer the check believes is valid under the emitted schema, for every declaration without a date, and for all if every text taken for a date matches the pattern |
| AnswerSchema.DatesDecideAgreement | crates/postio-ai/src/schema.rs:130-130 | For a declaration with a date, of which some answer is believed: all it believes is valid exactly when every text taken for a date matches the pattern |
| AnswerSchema.AgreementIsAboutDates | crates/postio-ai/src/schema.rs:83-190 | Over all declarations, what is believed is valid exactly when every text taken for a date matches the pattern |
| AnswerSchema.BelievedIffValid | crates/postio-ai/src/schema.rs:83-190 | For flat declarations with names that differ, integer bounds that fit 64 bits, and no date (or dates read exactly as the pattern has them), the check believes exactly the valid answers that write their numbers whole |
| AnswerSchema.DeepSchemasBelieveNothing | crates/postio-ai/src/schema.rs:156-190 | A declaration with rows inside rows believes no answer |
| AnswerSchema.CheckIsAll | crates/postio-ai/src/schema.rs:138-154 | An object passes exactly when its keys are the fields' names and every field holds |
| AnswerSchema.RefusalsAreTold | crates/postio-ai/src/schema.rs:103-154 | What an answer is refused for: not being an object, else a key not declared, else the first declared field that does not hold |
| AnswerSchema.RowsAreRefusedByTheFirst | crates/postio-ai/src/schema.rs:177-186 | The error inside rows is the first bad row's own, or the field's if that row is no object |
| AnswerSchema.ObjectAllows | crates/postio-ai/src/schema.rs:111-122 | The emitted schema allows exactly the objects with every field, no other, each valid under its property |
| QuoteSpans.SpansAreExact | crates/postio-ai/src/needs_action.rs:168-179 | The span cuts the trimmed quote out of the text at its first place, and there is one exactly for a quote of three letters or digits that occurs |
| QuoteSpans.ByteMatchIsCharMatch | crates/postio-ai/src/needs_action.rs:176-177 | A byte match starts and ends on character boundaries |
| QuoteSpans.CharCountIsLength | crates/postio-ai/src/needs_action.rs:177-178 | Counting first bytes counts characters |
| QuoteSpans.TrimIsExact | crates/postio-ai/src/needs_action.rs:172-172 | Trimming takes white space off both ends, all of it and nothing else |
| QuoteSpans.AlphanumericsAreLetters | crates/postio-ai/src/needs_action.rs:173-173 | What is counted are the places of letters and digits |
| BackOff.Client.Ask | crates/postio-ai/src/client.rs:147-201 | One question and its answer in every case: refused while resting with no attempt, one attempt and log entry else, the answer kept exactly if it passes, and a rest after `Down` or an error status |
| BackOff.Client.Resting | crates/postio-ai/src/client.rs:181-192 | The client rests exactly until its time, and then forgets it |
| BackOff.FailuresAreSpaced | crates/postio-ai/src/client.rs:48-50 | In every conversation an attempt after one that met `Down` or an error status comes a full minute after its end; in every window of attempts n such put its last attempt n rests after its first; the client rests for its last attempt alone, if that was such; and the log holds each attempt |

## Left out

- The keyring, the broker process, D-Bus and the keychain: foreign calls. A broker run fails or answers with any text.
- `StoredPasswordSource` and the OAuth flow: no state of their own.
- Executor scheduling and real time: steps interleave freely and clocks are integers that do not go back.
- Liveness of the work itself: a broker that never ends keeps its followers waiting, as in the source.
- BackOff: questions asked at the same time by several threads; the lock is held only for single reads and writes there, so the spacing is a fact about one question at a time.
- BackOff: HTTP framing, the byte cap and the URL; what follows a connection is one reply. An absent egress sink is an absent log.
- DataFence: what happens past the last `u32`, which needs more than four gigabytes of data; the search then answers none.
- PathGlobs: the text of the expressions and its parsing by `re`; the compiler writes syntax trees.
- YamlReader: comment stripping, quoting and the key pattern; a line comes as its indentation and its two readings.
- YamlReader: Python's recursion limit.
- CoverageSets: which regions are under test is a parameter, and a row's numbers come parsed.
- CrateBoundaries: running `cargo metadata`, the rule table and the printed message.
- Blanking: `isalnum` is a parameter, and taken to be what continues an identifier; a literal's plain `b` or `c` counts as code, as it does for the scan.
- Blanking: what Rust rejects (literals without an end, escapes it does not know) is read as the reference's rules go on.
- TestItems: the word pattern for test attributes is a parameter; nothing is said of attributes inside a skipped, non-test attribute, and of an item's syntax only its brackets and braces are known, so a `use` or a constant with braces ends with them.
- AnswerSchema: which texts are dates, and which match the pattern, are parameters; whether the parser used fits the pattern emitted is not settled here.
- AnswerSchema.BelievedIffValid: needs names that differ and bounds of 64 bits; with a name twice the emitted schema has only its last field, so only `BelievedIsValid` holds.
- QuoteSpans: the character classes for white space and letters are parameters.
- scripts/checks/check-runtime-crossings.py and scripts/checks/check-uncalled-pub-fn.py: their blanking lexers are variants of the one modelled, with rules of their own for raw strings and newlines.
- crates/postio-ai/src/like_this.rs and summary.rs: what they do with an answer that `Schema::check` passed is a range test on one number and a substring test on each excerpt.
- scripts/lib/ffi-closure.py: a reachability closure over manifests, the search of `CrateBoundaries` without banned crates and without paths.
- crates/postio-account/src/cancel.rs: one shared flag that is set and awaited; what cancellation does is modelled where it strikes, at the awaits of `run` and of the broker's run.
- PathGlobs: no condition is given for a whole list to be right on every path; a pattern with two stars may be overruled by a later one.
