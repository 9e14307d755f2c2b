# Models and proofs for the book factory

A Dafny model of the parts of the book factory where mistakes cost money, lose a reader's link or
lose a manuscript's words, with proofs of what those parts keep. Nothing here runs the factory; the
model follows its code, branch by branch, and the proofs are about the model.

`dafny verify dfyconfig.toml` checks the whole project.

## What is modelled

* **Slug aliases** (`SlugAliases`, `SlugPickers`, `AliasServer`). The client, project and alias
  tables, the two rename transactions, the two slug pickers of a fulfilment, and the two-level
  lookup. Owners of alias rows are bookkeeping the tables do not hold.
* **Builds and credits** (`BuildProtocol`, `BuildSafety`, `BuildCredits`, `BuildRaces`,
  `BuildRereads`, `BuildStuck`, `BuildOutputs`, `BuildHandlers`). Convert requests, background builds
  and the failure handler as a step system: one step for each SQL statement, any interleaving, any
  statement failing, the process dying.
  `BuildHandlers` holds the handlers themselves and shows that what they do is a run of that system.
* **Fulfilment of paid sessions** (`Fulfilment`, `FulfilmentSafety`, `FulfilmentTotals`,
  `FulfilmentStore`). Two kinds of callers, the mutex, the two commit shapes, crashes and retries,
  coupons, attached passes and grants.
* **Reading a manuscript** (`DocxReader`, `DocxTracked`). The streaming pass over the tokens of
  `word/document.xml` and the tree reading it implements. A document is a forest; its tokens are the
  flattened forest.
* **The book map** (`BookSections`, `BookBlocks`, `BookMap`, `BookContents`). Cutting before and at the headings,
  the title rule, typed contents, front and back runs, names and counts. The vocabulary tests and
  the heading normal form are parameters.
* **A project's style sheet** (`StyleSheet`, `SheetHandlers`). Seeding, pruning and every handler.
* **Smaller cores**: the sliding-window limiter (`RateLimiter`), the CSS, CSV and Typst printers
  with their readers (`CssStrings`, `CsvText`, `TypstStrings`), bylines (`Bylines`), custom styles (`StyleNames`,
  `CustomStyles`).

`Options`, `Words`, `Folds`, `Pieces` and `Numerals` hold what several of these share.

## What the proofs found

* **A losing request can change a build in flight.** The kind is written before the claim
  (srv/books.go:433) and re-read by the failure handler, so a refused proof request can cost a
  customer the refund of a failed final, and a refused final can refund a build nobody paid for
  (`BuildRaces.LosingProofStealsRefund`, `LosingFinalInventsRefund`).
* **A pass attached during a build is refunded for it.** A final an admin starts on a project without
  a pass is not charged; when a pass is attached (srv/passes.go:911-993) before it fails, the handler
  finds that pass and refunds it (`BuildRaces.AttachedPassIsRefunded`). The credit theorems for calm
  runs shut out both this and the rewritten kind; `BuildCredits.FinishedBuildCharge` and
  `BuildRereads.FailedBuildCost` need neither.
* **Used count and ledger can part.** `DecrementPassBuildsUsed` stops at zero
  (db/queries/passes.sql:62-66) and the refund row is written all the same. Without failing statements
  that is the only way they part (`BuildCredits.UsedMatchesLedger`), and it happens
  (`BuildRaces.LosingFinalMeetsZero`, `AttachedPassIsRefunded`); where no kind is rewritten during a
  build and no pass attached during a final it does not.
* **A project can be stuck.** A process that dies during a build leaves its book converting, and
  nothing resets that when the next one starts; so does a failed build whose error status is not
  written, an epub build whose ready status is not, and an unclaim that fails. Even with nothing
  failing, a refused debit puts back the status read before the claim, which is converting if a build
  was in flight then. No later request of the project gets through (`BuildStuck.StuckStep`,
  `StuckRuns`, `StuckForever`, `RefusedDebitSticks`).
* **A paid session can be wedged.** The comment at srv/store.go:599 is right that a retry cannot
  mint a second pass, but after a stop between the two commits no retry succeeds either: the session
  never gets its order row (`FulfilmentSafety.PassAndOrderTogether`, `WedgedForGood`,
  `SessionsCanWedge`).
* **A grant can lose its ledger row.** Extras and row are two statements without a transaction
  (srv/passes.go:1216-1230, srv/index.go:363-368): `FulfilmentTotals.LedgerAccountsForExtras`, `GrantCanLoseItsRow`.
* **Old addresses can be lost.** Renaming client c to d, then project q to r, then d to e leaves
  /c/q leading nowhere (`AliasServer.LostAddress`); `SlugAliases.ClientRenameReach` and
  `ProjectRenameReach` say for each rename exactly which addresses it loses.
* **Tracked changes are read as current.** Under change tracking the earlier style, the earlier
  page-break-before and an earlier section type override the current ones (`DocxTracked.OwnStyleRead`,
  `OwnBreakRead`, `OwnSectionRead`, with a document for each).
* **A short window forgets long ones.** The 24-hour key at srv/nits.go:113 shares its limiter with
  ten-minute keys, whose calls prune it (`RateLimiter.ShortWindowForgets`, `BoundIffWindowsReach`).
* **Two styles can share an identifier**, and then the config defines it twice
  (`StyleNames.IdentsCollide`, `CustomStyles.ConfigDefinesTwice`).

## Model

| member | source | states |
|---|---|---|
| SlugAliases.RunKeepsInv | srv/slugs.go:275-410 | after any fulfilments and renames: alias targets are live, no alias key is a live client or project, project rows sit under live clients, so keys and targets never overlap |
| SlugAliases.RenameClientKeepsInv | srv/slugs.go:311-338 | the client-rename transaction keeps that invariant |
| SlugAliases.RenameProjectKeepsInv | srv/slugs.go:381-407 | the project-rename transaction keeps that invariant |
| SlugAliases.FulfilKeepsInv | srv/slugs.go:108-170 | a fulfilment with a free client slug and a free book slug keeps that invariant |
| SlugAliases.SurvivingAliasFollowsOwner | srv/slugs.go:311-402 | an alias row that survives any run points at the current address of the client or project it was made for |
| SlugAliases.StepKeepsOwner | srv/slugs.go:389-402 | one event never re-points a surviving row to another owner |
| SlugAliases.LiveIsNotRedirected | srv/slugs.go:225-240 | looking a live address up in the alias table finds nothing, although the lookup runs before the routes |
| SlugAliases.TwoHopsSettle | srv/slugs.go:225-269 | from any address whatever two redirects are enough: no redirect loop exists |
| SlugAliases.Routes | srv/slugs.go:225-240 | what one lookup can do: nothing, one client alias, one project alias, or a client alias and then a project alias |
| SlugAliases.ClientRenameReach | srv/slugs.go:311-338 | a client rename keeps an address leading to its project, except exactly when the address is under the new slug without having been at that place under the old one, or its route came by another alias of the client into a project alias under the old slug |
| SlugAliases.ProjectRenameReach | srv/slugs.go:381-407 | a project rename keeps an address leading to its project, except exactly when its route used the alias of the new address |
| SlugAliases.LivePairSurvivesClientRename | srv/slugs.go:311-338 | every (client, project) pair live just before a client rename reaches the same project afterwards in at most one redirect |
| SlugAliases.LivePairSurvivesProjectRename | srv/slugs.go:381-407 | the same for a project rename |
| SlugPickers.UniqueClientSlug | srv/slugs.go:108-127 | the first free of base, base2, ..., base999, or nothing when all 999 are taken |
| SlugPickers.CandidateIsNumbered | srv/slugs.go:108-127 | from the second on a candidate is the base followed by the decimal numeral of its number, no leading zero |
| SlugPickers.HighestSequence | srv/slugs.go:139-156 | the loop finds the highest book number in use, aliases included |
| SlugPickers.BookSlugRoundTrip | srv/slugs.go:130-159 | the printed book slug matches the pattern the picker reads and gives its number back |
| SlugPickers.BookSlugIsNumbered | srv/slugs.go:157-159 | book number n is "book-" and at least three digits that read as n, padded only to three |
| SlugPickers.SequenceNumberIsRead | srv/slugs.go:130-132 | a slug has a number exactly when it is "book-" and three digits or more, and it is what they read as |
| SlugPickers.NextProjectSlug | srv/slugs.go:134-170 | the slug chosen is the printed number one past the highest ever in use, 1 where nothing was, above that of every project and project alias of the client, and is returned at the first try |
| SlugPickers.NextIsFree | srv/slugs.go:157-168 | no live project and no alias of that client bears the slug chosen |
| AliasServer.RewriteForClient | srv/slugs.go:324-326 | the three alias statements of a client rename, in order, give the specified table |
| AliasServer.RewriteForProject | srv/slugs.go:393-395 | the three alias statements of a project rename, in order, give the specified table |
| AliasServer.Server.RenameClient | srv/slugs.go:275-342 | the handler: each error code exactly when it is due, failing statements included; the whole transaction with the cache reloaded, or nothing |
| AliasServer.Server.RenameProjectSlug | srv/slugs.go:345-410 | the handler: each error code exactly when it is due, failing statements included; the whole transaction with the cache reloaded, or nothing |
| AliasServer.Server.FulfilSlugs | srv/slugs.go:108-170 | fulfilment takes the first free candidate as client slug and book-001 under it, and fails exactly when all 999 are taken, changing nothing |
| AliasServer.Server.ResolveSlugAlias | srv/slugs.go:225-240 | the cached lookup equals the lookup in the table |
| AliasServer.Server.RedirectAliasedPath | srv/slugs.go:244-269 | a path is redirected exactly when its first two segments resolve, to what they resolve to; later segments are kept |
| AliasServer.LostAddress | srv/slugs.go:311-338 | three renames after which an address that was live leads nowhere: older addresses are not covered |
| BuildSafety.RunKeepsExclusive | srv/books.go:439-454 | on every interleaving, with faults and crashes: a request past its claim owns its book, owners are apart, and no two books of a project are converting |
| BuildSafety.OneBuildPerProject | srv/books.go:376-454 | two requests building at one moment are for books of different projects; the advisory count is not used |
| BuildSafety.StepKeepsExclusive | db/queries/passes.sql:125-136 | the claim statement alone carries the guarantee |
| BuildSafety.PruneKeepsNewest | db/queries/book_outputs.sql:37-47 | pruning, of any book, never changes which PDF of a book is the newest |
| BuildSafety.PruneKeepsNewestRows | db/queries/book_outputs.sql:37-59 | pruning keeps exactly the rows with fewer than the given number of newer ones of their book, format and kinds, and every other row, in order |
| BuildSafety.PruneKeepsOthers | db/queries/book_outputs.sql:37-59 | pruning touches no other book, format or kind |
| BuildOutputs.ProofsPruned | srv/books.go:1181-1187 | pruning proofs leaves the five newest proof PDFs of the book and every other row |
| BuildOutputs.EpubsPruned | srv/books.go:1189-1196 | pruning EPUBs leaves the ten newest of the book, proof or final, and every other row |
| BuildSafety.RunKeepsPdfNewest | srv/books.go:1057-1073 | from the moment a build stored its PDF until it ends, that row is the newest PDF of its book |
| BuildSafety.ReadyServesOwnPdf | srv/books.go:1057-1141 | a pdf or both build sets ready only with its own PDF as the newest row, stamped with the kind it was asked for |
| BuildSafety.FinalsAreNeverPruned | srv/books.go:1181-1187 | a final PDF once stored stays stored |
| BuildSafety.CapHolds | srv/passes.go:197-214 | with the gate on and no admin builds, used never exceeds included plus extra, on any interleaving and with any failures |
| BuildSafety.UnmeteredBreaksCap | srv/passes.go:179-196 | an unconditional debit breaks the cap if and only if the pass is already spent |
| BuildCredits.RunKeepsTallied | srv/books.go:428-479 | every request's credit counters match where it stands and what its failure handler read, on every interleaving, passes attached at any time included |
| BuildCredits.FinishedBuildCharge | srv/books.go:1206-1234 | what a build costs on any interleaving if its own statements went through: a delivered final one credit, a delivered proof none; a failed build none if and only if, made with a pass, the handler re-read its kind, or, made without one, the handler found no pass for what it took for a final; refunded once, and a gift of one credit otherwise |
| BuildRereads.KindIsLast | srv/books.go:428-436 | on every run the kind in a book's row is that of the last request that recorded one |
| BuildRereads.ReadsAreOfTheRun | srv/books.go:1216-1231 | what the failure handler re-reads is that kind at that moment, and the pass it finds is the one the project has by then |
| BuildRereads.FailedBuildCost | srv/books.go:1206-1234 | so the cost of a failed build told from the run alone: by the last kind recorded before the re-read and by whether the project had a pass at the lookup |
| BuildCredits.RunBalances | srv/passes.go:179-226 | on every run, faults and crashes included: the ledger equals what the requests wrote to it, and the used count is what the requests took and gave back plus one for each refund that met a zero count |
| BuildCredits.CalmRunKeepsKind | srv/books.go:1217-1231 | in calm runs (nothing fails, no book's kind is rewritten during its build, no project gets its pass while a final of it is under way) the failure handler re-reads the kind the build was made with and finds a pass only if the request did |
| BuildCredits.UsedCountsFinals | srv/books.go:428-479 | in calm runs, used grew by the finals under way and the delivered ones: +1 for a delivered final on a passed project, 0 for proofs and failed finals, each refunded once |
| BuildCredits.SmoothRunCountsFinals | srv/books.go:428-479 | on every run without a failing statement or a crash: used grew by those finals, plus the failed finals never refunded, less the refunds of builds never charged that found a credit; by the finals alone if and only if the rest cancels |
| BuildCredits.UsedMatchesLedger | srv/passes.go:179-226 | on every run without a failing statement or a crash, used equals debit rows minus refund rows, up to requests paused between their two writes, if and only if no refund met a zero count |
| BuildCredits.SmoothRunIsFaultless | srv/passes.go:179-226 | in such runs no request has seen a failure: the hypothesis is about the run, not the outcome |
| BuildCredits.CalmRunNeverClamps | srv/passes.go:215-226 | in calm runs no refund meets zero |
| BuildCredits.CalmUsedMatchesLedger | srv/passes.go:179-226 | so in calm runs used equals the ledger outright |
| BuildRaces.LosingProofStealsRefund | srv/books.go:433-443 | a run that is not calm: a losing proof request rewrites the kind and a failed final is never refunded |
| BuildRaces.LosingFinalInventsRefund | srv/books.go:1217-1233 | another: a failed proof is refunded though nothing was debited |
| BuildRaces.LosingFinalMeetsZero | db/queries/passes.sql:62-66 | and that refund meets zero: the one clamp of its run, by which used and ledger part |
| BuildRaces.AttachedPassIsRefunded | srv/passes.go:911-993 | a third: a final started where there is no pass is not charged, a pass is attached while it runs, and its failure is refunded, at a count of zero |
| BuildStuck.StuckStep | srv/books.go:376-454 | after a step a book is converting with no build behind it if and only if it was before, or the process died during its build, or its owner let go: unclaim failed or wrote back converting, the error status or an epub build's ready status was not written |
| BuildStuck.StuckRuns | srv/books.go:376-1217 | on every run from any start, exactly those steps, or a start already so, leave a book stuck |
| BuildStuck.IdleIsClaimable | db/queries/passes.sql:125-136 | with no build in flight in its project a book can be claimed if and only if no book there is stuck |
| BuildStuck.SavedIsRead | srv/books.go:452-454 | the status unclaim writes is the one its request read when it began, whatever happened since |
| BuildStuck.UnclaimSticks | srv/books.go:452-454 | writing it back leaves the book stuck if and only if a build of the book was in flight at that moment |
| BuildStuck.RefusedDebitSticks | srv/books.go:452-466 | a run without any failure that gets there: two finals, one credit |
| BuildStuck.StuckForever | db/queries/passes.sql:125-136 | once stuck a book stays so, and no book of its project is ever claimed again, restarts included |
| BuildHandlers.Factory.RequirePassAccess | srv/passes.go:153-176 | allows an admin always, a customer exactly with a pass and, for a final with the gate on, a credit left |
| BuildHandlers.Factory.CountConverting | srv/books.go:376-388 | the advisory check refuses exactly when a build of the project is in flight |
| BuildHandlers.Factory.HandleConvertBook | srv/books.go:263-507 | the handler alone: starts exactly when access is allowed and neither the book nor another of its project is being built, charges exactly a started final with a pass, costs nothing otherwise, and extends the run of the protocol |
| BuildHandlers.Factory.ClaimAndDebit | srv/books.go:428-479 | kind written; started exactly when the claim and the debit succeed, with the status converting and one charge; otherwise the old status is back and nothing charged |
| BuildHandlers.Factory.RefundBuildCredit | srv/passes.go:215-226 | decrement clamped at zero, then the ledger row, both steps of the protocol |
| BuildHandlers.Factory.FailConversion | srv/books.go:1206-1234 | status failed; one credit and one row back exactly when the row as re-read says final and its project has a pass |
| BuildHandlers.Factory.RunConversion | srv/books.go:799-1141 | a build is delivered exactly when its PDF is: of the proof PDFs of the book the five newest are left, a final adds one row, of the EPUBs the ten newest are left after a success, no other row goes; the status, and the refund of a failed one; a failed EPUB does not fail it |
| BuildHandlers.Factory.RunEpubBuild | srv/books.go:1143-1174 | an epub build is delivered exactly when the runner succeeds, with the ten newest EPUBs of the book left and every other row as it was; a failed one is refunded by what the row says |
| FulfilmentSafety.RunKeepsInv | srv/store.go:480-608 | on every interleaving with crashes and retries: one holder of the mutex, unique session ids, whole passes only but for those attached to a project there was, one pass to a project, fresh results backed by an order row |
| FulfilmentSafety.AtMostOnce | srv/store.go:480-608 | a session id yields at most one pass, with its client, project and transmittal, and at most one fresh result |
| FulfilmentSafety.PassAndOrderTogether | srv/store.go:599-608 | a session has its pass without its order row if and only if some caller stopped between the two commits |
| FulfilmentSafety.WedgedStep | srv/store.go:599-608 | the one step that causes it |
| FulfilmentSafety.WedgedForGood | srv/store.go:599-608 | and every later attempt for the session then fails: the order row never appears |
| FulfilmentSafety.SessionsCanWedge | srv/store.go:599-608 | a run that gets there, for every session that pays for a pass |
| FulfilmentTotals.ExtrasAreAccountedFor | srv/passes.go:1177-1240 | with crashes anywhere, a pass's extras equal its cart's extras plus the sum over its add-on orders plus all admin grants, of builds and of the index, recorded or not |
| FulfilmentTotals.LedgerAccountsForExtras | srv/index.go:333-369 | with the ledger rows in place of the grants, the account is right if and only if every grant of builds so far has its row, and every grant of the index too unless cart, orders or another row tell of the index |
| FulfilmentTotals.StoppedRuns | srv/passes.go:1216-1230 | on every run, a grant of either sort is without its row for good exactly when a step stopped it |
| FulfilmentTotals.GrantCanLoseItsRow | srv/index.go:362-369 | a run that gets there for either sort: granted and no ledger row |
| FulfilmentTotals.CouponsNeverOverRedeemed | srv/passes.go:429-436 | a coupon's count equals the passes made from it and never exceeds its maximum |
| FulfilmentTotals.EachOrderIsItsCart | srv/store.go:540-598 | each order row carries exactly its own session's extras |
| FulfilmentTotals.RunKeepsTotals | srv/passes.go:306-463 | all three totals hold after every event |
| FulfilmentStore.SumCart | srv/store.go:503-527 | the loop over line items: three builds for each builds-3 item bought, six months for each storage item, the index exactly if some index line has a positive quantity, and a pass exactly if some line is one |
| Fulfilment.CartGives | srv/store.go:503-527 | what a cart gives, item by item: three builds, six months, the index |
| Fulfilment.SessionIsFor | srv/store.go:536-597 | a session buys a pass exactly if it says so, or says nothing and holds one; an add-on exactly if it says so; anything else is an error |
| FulfilmentStore.Store.FulfillPass | srv/passes.go:306-463 | whichever statement fails, nothing changes; otherwise client, project, transmittal, pass and coupon change together |
| FulfilmentStore.Store.FulfillStoreSession | srv/store.go:480-608 | the handler: already done, unpaid, fresh or error, each exactly when due, with the whole new tables in each case; a fresh session adds to its pass what its items give, told by the items |
| Words.TrimKeepsWords | srv/bookmap.go:89-93 | trimming a text loses no word |
| Words.OneWord | srv/bookmap.go:89-93 | a text without white space that is not empty is one word |
| Words.WordsApart | srv/bookmap.go:89-93 | white space between two texts adds their words |
| Words.TrimIsMiddle | srv/bookmap.go:89-93 | trimming takes white space off both ends and nothing else |
| DocxReader.ChildrenActAsMarks | srv/bookmap.go:788-862 | inside an outermost paragraph the token machine does what the marks of the tree say |
| DocxReader.MarksAreRead | srv/bookmap.go:790-846 | style, text, image and both break flags of a paragraph are those of the declarative reading |
| DocxReader.DocumentIsTaken | srv/bookmap.go:779-866 | the machine over the flattened tree takes the outermost paragraphs one by one |
| DocxReader.NestedIsIgnored | srv/bookmap.go:790-796 | nothing inside a nested paragraph is taken |
| DocxReader.TakenIsReading | srv/bookmap.go:761-777 | the pending flag is the carry rule: a break is passed on through any number of blank paragraphs |
| DocxReader.StreamingIsReading | srv/bookmap.go:748-867 | the whole pass: exactly the outermost paragraphs with text or an image, in order, with a break before exactly when one stands before their content or was raised after the last kept one |
| DocxReader.ReadingSays | srv/bookmap.go:748-867 | each paragraph with content is kept once, in order, under the style its marks and the style table give it; the others are not kept |
| DocxReader.RunsSay | srv/bookmap.go:797-846 | in a run text is text, a tab and a line break are spaces, a page break is one, other breaks are nothing, a drawing or picture is an image |
| DocxReader.ParseDOCXParagraphs | srv/bookmap.go:750-867 | the loop computes that on every token stream, nothing on a broken one; on the stream of a document every paragraph with content is kept once, in order, with the style the table gives its last style mark (its normalised id where the table has none, "normal" where there is no mark), its text, image and break |
| DocxTracked.PropertiesAreRead | srv/bookmap.go:795-820 | properties are read in document order, earlier (tracked) ones after the current ones; whatever else stands among them makes spaces at most |
| DocxTracked.OwnStyleRead | srv/bookmap.go:797-805 | whatever other properties stand around, the style read is the paragraph's own if and only if no tracked change kept another one |
| DocxTracked.OwnSectionRead | srv/bookmap.go:810-820 | around any body, the break after a paragraph is the one its own section and body ask for, if and only if no tracked earlier section type disagrees unmasked by a break of the body |
| DocxTracked.OwnBreakRead | srv/bookmap.go:806-809 | the break before it is the one its own properties and body ask for, if and only if no tracked earlier property alone asked for one |
| DocxTracked.RemovedBreak | srv/bookmap.go:806-809 | a page-break-before taken away under change tracking still breaks the page |
| DocxTracked.RetypedSection | srv/bookmap.go:810-820 | a section changed from continuous to next-page under change tracking still runs on |
| DocxTracked.RestyledHeading | srv/bookmap.go:795-805 | a heading restyled under change tracking is still read as that heading |
| BookSections.CutsAtHeadings | srv/bookmap.go:401-413 | sections put back under their headings are the manuscript: nothing lost, cut exactly at Heading 1 |
| BookSections.CutSpans | srv/bookmap.go:406-413 | the loop computes that cut |
| BookSections.SpansConcat | srv/bookmap.go:406-413 | cutting is local: two manuscripts that start with headings are cut separately |
| BookSections.IsTitleStub | srv/bookmap.go:499-518 | at most three paragraphs, sixty words and no heading |
| BookSections.FrontBodyBack | srv/bookmap.go:450-484 | kept sections run front, body, back |
| BookSections.RunsGiveKinds | srv/bookmap.go:457-475 | the greedy counts of front and back runs give each kept heading the kind told from the titles around it |
| BookSections.BodyStarts | srv/bookmap.go:475-479 | the heading a late-front warning names is the first body chapter |
| BookSections.FillKinds | srv/bookmap.go:469-484 | kinds and warnings of the last loop, all indices in range |
| BookSections.ClassifySections | srv/bookmap.go:415-484 | the first section goes as the title page exactly if its heading, not empty in normal form, is that of the book title or the styled title over at most three paragraphs, sixty words and no heading; contents exactly by their headings; front and back matter exactly the runs at the two ends, none where all sound like front matter; the warnings are exactly those due |
| BookSections.WarnedMeans | srv/bookmap.go:469-484 | a warning is given exactly for a body chapter that sounds like front matter, naming the first body chapter, or like back matter only |
| BookBlocks.CutBlocks | srv/bookmap.go:314-338 | the loop finds the maximal runs of paragraphs that belong together, in order, and drops bylines and copyright pages |
| BookBlocks.OnlyOneCut | srv/bookmap.go:296-332 | those pieces are unique |
| BookBlocks.CutSays | srv/bookmap.go:296-338 | pieces are cut at page breaks, where a style of its own begins or ends, and around the author's line; exactly that line and copyright pages are dropped |
| BookBlocks.NameBlocks | srv/bookmap.go:339-373 | the naming loops give the specified names |
| BookBlocks.FreeNamesAre | srv/bookmap.go:339-358 | the names for unstyled pieces: what is declared, then dedication and epigraph, each once and in order, none a kept piece has by its style |
| BookBlocks.NamesAreDistinct | srv/bookmap.go:339-373 | no unstyled piece shares its name with another piece that is kept |
| BookMap.DropTitles | srv/bookmap.go:251-275 | title and subtitle paragraphs are taken out, joined and the rest counted |
| BookMap.BuildBookMap | srv/bookmap.go:239-492 | the map has the pieces, names, sections, kinds, warnings and counts specified; an empty book is one that keeps no word |
| BookMap.MapSays | srv/bookmap.go:415-484 | in the map: which section goes as the title page, the titles and counts of all, and that a name is missing exactly if it was declared and no kept piece has it |
| BookMap.WordsAccounted | srv/bookmap.go:520-539 | words are kept, stand before the first heading or are in dropped sections: nothing else |
| BookMap.ParagraphsAccounted | srv/bookmap.go:312-413 | untitled pieces and sections count every paragraph once, title lines apart |
| BookMap.SectionsInOrder | srv/bookmap.go:415-484 | in any map set sections run front, body, back; only the first can go as a title page, over at most three paragraphs and sixty words |
| BookMap.CountKeptWords | srv/bookmap.go:524-539 | the loop over sections computes the kept words |
| BookMap.ContentsCanGo | srv/bookmap.go:437-484 | taking one typed contents section out leaves every other section as it was |
| BookContents.AllContentsCanGo | srv/bookmap.go:415-484 | a manuscript with its typed contents sections taken out, paragraphs and all: its map is the map of the whole without those sections, kinds, counts, pieces and words kept alike |
| BookContents.StripSplits | srv/bookmap.go:406-413 | the cut of what is left is the cut of the whole without those sections |
| BookMap.ClearedSpans | srv/bookmap.go:415-484 | the same on cuts: other sections keep their kinds and counts, kept words are the same |
| BookMap.ClearedHasNone | srv/bookmap.go:437-440 | and none is left |
| BookMap.DeletedSection | srv/bookmap.go:406-413 | deleting a heading and the paragraphs under it from the manuscript deletes that section |
| StyleSheet.RunKeepsInv | srv/project_stylesheet.go:104-591 | after any handlers, some stopped half-way: a house row is accepted only with the house text, edited only with another, stands where the house put it; own rows are added or rejected; no rule is copied twice |
| StyleSheet.SwitchKeepsTouched | srv/project_stylesheet.go:135-162 | a change of kind, wherever it stops, keeps every edited, rejected, annotated or own row under its id |
| StyleSheet.PruneThenSeed | srv/project_stylesheet.go:135-162 | prune then seed leaves exactly the rules of the kind, fresh unless touched, and the touched ones |
| StyleSheet.SwitchTwice | srv/project_stylesheet.go:278-315 | switching to one kind and then another gives the rules of switching to the other directly |
| StyleSheet.SwitchIsSettled | srv/project_stylesheet.go:107-131 | opening the sheet again changes nothing |
| StyleSheet.OpeningAdds | srv/project_stylesheet.go:107-146 | opening leaves every row there was and adds copies of the missing rules of the kind; a new sheet is of kind both |
| StyleSheet.SwitchingLeaves | srv/project_stylesheet.go:278-315 | a whole change of kind leaves the rows worked on, has every rule of the new kind, and nothing else |
| StyleSheet.LostWithoutInv | srv/project_stylesheet.go:148-162 | with a row the invariant forbids, the same switch loses the client's text |
| SheetHandlers.ProjectSheet.SeedKind | srv/project_stylesheet.go:132-146 | the insert over the house rows, as specified |
| SheetHandlers.ProjectSheet.EnsureSheet | srv/project_stylesheet.go:107-131 | creates the sheet once, of kind both; leaves every row there was and adds exactly copies of the missing rules of its kind |
| SheetHandlers.ProjectSheet.HandlePatchSheet | srv/project_stylesheet.go:276-315 | switches to nonfiction, both or fiction as told: every row worked on stays as it was, every rule of the kind is there, and beside the worked ones only copies of those |
| SheetHandlers.ProjectSheet.HandleAcceptAll | srv/project_stylesheet.go:317-350 | every row the opened sheet held stays under its id with its place, text and note; none is rejected; a rejected own row is added, a rejected house row accepted exactly if its text is the house text and edited otherwise, the others are unchanged |
| SheetHandlers.ProjectSheet.HandleAddItem | srv/project_stylesheet.go:352-425 | refused exactly when empty; otherwise the new rule comes last in its section: the one named, or one with the number sent, or the clients' own |
| SheetHandlers.ProjectSheet.HandlePatchItem | srv/project_stylesheet.go:427-509 | text and note as sent, each trimmed; the status from the text beside the house text unless rejected, field by field; unknown rows and statuses change nothing |
| SheetHandlers.ProjectSheet.HandleDeleteItem | srv/project_stylesheet.go:528-551 | own rows only |
| SheetHandlers.ProjectSheet.HandleRestoreItem | srv/project_stylesheet.go:553-588 | house text back, accepted, note kept |
| SheetHandlers.ProjectSheet.Load | srv/project_stylesheet.go:164-221 | every row once, in order, under strictly rising sections; counted once by status |
| SheetHandlers.OriginalBesideEdited | srv/project_stylesheet.go:197-199 | of the rules in force, the studio text is shown beside exactly the edited ones |
| RateLimiter.WindowHolds | srv/registration.go:49-76 | if no other key's window is more than one shorter, at most n calls of a key pass in any window, whatever the other keys do |
| RateLimiter.NoNeedlessRefusal | srv/registration.go:54-74 | and a call is refused if and only if n passed in its window |
| RateLimiter.ShortWindowForgets | srv/nits.go:113 | for every limit, one call of a key with a window shorter than that lets one call too many through |
| RateLimiter.BoundIffWindowsReach | srv/registration.go:49-76 | so the bound holds on every run if and only if the other windows reach to one less than the key's own |
| RateLimiter.Compact | srv/registration.go:54-59 | in-place compaction keeps exactly the times after the cutoff, in order |
| RateLimiter.Limiter.PruneOthers | srv/registration.go:62-69 | other keys are forgotten exactly when their last time is before the cutoff |
| RateLimiter.Limiter.Allow | srv/registration.go:49-76 | the call, buffers and all, answers and stores as specified |
| CssStrings.CssStringEscape | srv/epub.go:877-891 | the loop writes one piece a character |
| CssStrings.EscapeIsRead | srv/epub.go:874-891 | read by sections 4.3.5 and 4.3.7 of CSS Syntax Module Level 3 the text comes back, NUL as U+FFFD; the string does not end early and swallows nothing after it |
| CssStrings.RoundTripIffNoNul | srv/epub.go:877-891 | it reads back exactly when it holds no NUL |
| CssStrings.WrittenIsAscii | srv/epub.go:874-891 | what is written is printable ASCII |
| CssStrings.PlainStays | srv/epub.go:877-891 | printable text with neither backslash nor quote is written as it is |
| CsvText.ExportRows | srv/registration.go:1010-1028 | the loops write the header and one line a row |
| CsvText.LineIsRead | srv/registration.go:992-997 | a line reads back as its cells by section 2 of RFC 4180 |
| CsvText.ExportIsRead | srv/registration.go:992-1029 | the whole export reads back cell for cell |
| CsvText.QuotedIffNeeded | srv/registration.go:992-997 | a cell is put in quotes exactly when it holds a comma, a quote or a line break |
| TypstStrings.PassesAreOne | srv/books.go:1654-1660 | the four passes are one pass over the text with Unix line ends |
| TypstStrings.EscapeIsRead | srv/books.go:1654-1660 | the literal reads back as that text and ends where it should |
| TypstStrings.RoundTripIffUnix | srv/books.go:1654-1660 | it reads back unchanged exactly when no carriage return stands before a line feed |
| TypstStrings.LineEndsGo | srv/books.go:1654-1660 | each carriage return before a line feed goes, wherever the pair stands |
| Bylines.CollectCandidates | srv/chapter_detect.go:290-319 | handing the nearest style down finds every paragraph with text in document order under its nearest given style |
| Bylines.StoppingEarly | srv/chapter_detect.go:321-341 | stopping once the window is full gives the first three candidates of the whole opening |
| Bylines.CollectWindow | srv/chapter_detect.go:330-341 | the loop computes that window: the first three candidates of the opening, or all of fewer |
| Bylines.ScanByline | srv/chapter_detect.go:330-369 | the name is that of the first candidate in an author style; else the first one introduced by "by"; else the first short line in italics; else there is none |
| Bylines.ChosenByConfidence | srv/chapter_detect.go:325-369 | the choice by classes of offers is that order of confidence |
| Bylines.ChosenIsUnique | srv/chapter_detect.go:343-368 | that choice is unique |
| Bylines.SomethingIsBest | srv/chapter_detect.go:343-368 | where anything is offered there is a best offer |
| Bylines.NoAuthorMeansNoOffer | srv/chapter_detect.go:343-368 | no author is suggested exactly when no candidate offers one |
| Bylines.NoAuthorMeansNoSign | srv/chapter_detect.go:325-369 | no author is suggested exactly when no candidate is in an author style, is introduced by "by" or is a short line in italics |
| Bylines.DetectChapters | srv/chapter_detect.go:371-396 | one entry for each level-1 heading with text, in order, with the byline of its own opening |
| Bylines.BylineIsLocal | srv/chapter_detect.go:330-338 | what follows the next chapter heading is never looked at |
| StyleNames.CleanStyleName | srv/customstyles.go:116-129 | the loop ends and computes the cleaned name |
| StyleNames.CleanIsClean | srv/customstyles.go:116-129 | cleaning reaches a fixpoint: trimmed, no markers, nothing left to clean |
| StyleNames.MarkersDoNotCount | srv/customstyles.go:111-115 | a name typed with its manuscript markers is the name |
| StyleNames.BracketsDoNotCount | srv/customstyles.go:108-129 | nor does a single pair of brackets |
| StyleNames.NamesStay | srv/customstyles.go:108-129 | a trimmed name without a bracket at one of its ends is left as it is |
| StyleNames.NoMarkersLeft | srv/customstyles.go:108-129 | brackets left around a cleaned name have a line break between them |
| StyleNames.TypstStyleIdent | srv/bookspecs.go:790-813 | the loop with its dash flag computes the identifier |
| StyleNames.CoreIsSlug | srv/bookspecs.go:790-802 | the core keeps every letter and digit in order, joined by single hyphens |
| StyleNames.IdentIsWellFormed | srv/bookspecs.go:790-813 | every identifier is a lower-case word and not reserved |
| StyleNames.IdentIsFixed | srv/bookspecs.go:790-813 | making an identifier of an identifier changes nothing |
| StyleNames.IdentsCollide | srv/bookspecs.go:785-813 | two names share their identifier if and only if their cores are equal or one core is what the other is turned into by "my-style", "s-" or "cs-" |
| StyleNames.SpacedNamesCollide | srv/bookspecs.go:785-789 | names that differ in a space for a hyphen do; the core of both is the one with the hyphen |
| StyleNames.PipelineWordsAreFree | srv/customstyles.go:58-106 | none of the 279 reserved words looks like a name made by a prefix |
| CustomStyles.NormalizeCustomStyleParent | srv/customstyles.go:140-182 | the parent: first with the key, then the aliases, then the default |
| CustomStyles.NameAsked | srv/customstyles.go:154-158 | a paragraph style that asks for one of the thirteen parents by name has it |
| CustomStyles.OtherWordAsked | srv/customstyles.go:159-175 | any other word gives the parent exactly by the alias lists, and Normal where it is in none |
| CustomStyles.CharacterWords | srv/customstyles.go:143-153 | for a character style: italic, small caps and code exactly by their words, none otherwise |
| CustomStyles.ParentIsFixed | srv/customstyles.go:140-182 | a normalised parent normalises to itself |
| CustomStyles.NormalizeCustomStyle | srv/customstyles.go:185-278 | no form exactly without a name; else each field: cleaned names, kind, parent by own or earlier word, indent 0 to 2 under the three parents that allow one, space 3 or 6 only at a section break, preset and snippet own, earlier or by default |
| CustomStyles.NormalIsNormal | srv/customstyles.go:185-278 | every field of the result is in normal form: cleaned names, known parent, indent and space in range and only where allowed |
| CustomStyles.NormalTwice | srv/customstyles.go:185-278 | normalising twice, without a previous entry, equals once |
| CustomStyles.RewrittenDefines | srv/customstyles.go:462-474 | a rewritten snippet defines the identifier asked for whenever it starts with a #let of a function |
| CustomStyles.DefinitionDefines | srv/customstyles.go:347-394 | a definition defines the style's identifier if and only if it is not a snippet without such a head |
| CustomStyles.DefinitionMeans | srv/customstyles.go:347-394 | a snippet of one's own goes before a designed preset, and that before the parent; of the snippet only the name in its head changes |
| CustomStyles.FilterNamesAreDefined | srv/books.go:1886-1918 | the identifier handed to the filter is the one the config defines, under the same condition |
| CustomStyles.DeclaredStylesForPandoc | srv/books.go:1886-1918 | one entry for each named row, at the rows' places in order: word style or name, identifier, kind, and merged exactly for paragraph styles over Verse or Signature with neither snippet nor designed preset |
| CustomStyles.PlainRowCoalesces | srv/customstyles.go:396-405 | a row with neither preset nor snippet is merged exactly when it is a paragraph style over Verse or Signature whose name has no designed preset |
| CustomStyles.ConfigDefinitions | srv/bookspecs.go:740-757 | one definition for each named row, at the rows' places in order: snippet, designed preset or parent |
| CustomStyles.ConfigDefinesTwice | srv/bookspecs.go:740-757 | two styles of a config, neither a headless snippet, define one identifier, and the filter calls both by it, under exactly that condition on their names |

## Left out

- Expiry, passwords, rate limits and the other reasons a convert request can be refused for: one
  nondeterministic refusal; the clock is not modelled, so `passLive` only appears as such a refusal.
- Re-linking a book to another project (srv/books.go:1533-1566), deleting books, and deleting projects
  with their passes (db/queries/projects.sql:22-23): outside the events of the protocols.
- Clients and transmittals made by hand: FulfilmentSafety speaks of those fulfillPass makes. An
  attached pass is one step, as its handler writes one row.
- Slug changes that go past the alias table (admin client create, portal and admin project create,
  PUT on a project): they break the alias invariants by design.
- Alias-cache reloads that race: one reload after each commit.
- The text folding of `deriveClientSlug`: the pickers take the base slug as given. Sequence numbers
  are unbounded, where the source uses Go's int.
- pandoc, Typst, the EPUB runner, Stripe and the mailer: each a success or a failure.
- The poller's completeness: its cursor moves past failed events, so only safety is claimed.
- Storage months of an add-on are counted; the date arithmetic SQL does with them is not modelled.
- XML parsing: a document is a forest of elements by local name, and a broken stream a token. The
  style table of `word/styles.xml` is a parameter.
- The vocabularies and `normalizeHeading`: parameters of the book map. The text of notes, previews
  and summaries, and the cross-check with the transmittal, are not modelled.
- Other projects' rows of the style sheet: each statement names its project, so one project's tables
  are modelled. House rows do not change and their ids are their positions.
- The status word of a style-sheet patch and the book-kind word come already lower-cased.
- JSON decoding: pandoc trees and style entries come decoded; numbers that do not parse are absent.
- The Typst text of presets and parents after the head of a definition: parameters.
- `syncSpecFromTransmittal`, the email limiter, the index package, pages and
  mail bodies: not modelled.
- BuildHandlers.Factory.HandleConvertBook: models the handler when each statement succeeds and no
  other request steps in between; failing statements and interleavings are runs of the protocol,
  where the theorems of BuildSafety, BuildCredits and BuildStuck cover them.
- The end of an EPUB build stores its row and prunes older EPUBs in two statements, one step here.
