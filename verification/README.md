# Verified model of the resume platform's core

This project models the parts of the platform where a mistake is hard to see by
reading one function, and proves what they keep:

- **Refresh-token rotation.** Account and chain version counters, the registry of
  consumed jtis, logins, refreshes, revocations, token checks and the nightly sweep,
  as a state machine with one event per database statement or signature and a program
  counter per request in flight (`TokenStore`, `TokenRotation`). Theorems are about
  every run from empty tables (`TokenInvariants`, `TokenTheorems`, `TokenSingleUse`,
  `TokenRevocation`, `TokenReplay`, `TokenLifetimes`), or say what a call does that runs
  alone (`TokenSequential`); `RefreshTokenService` holds the same operations as methods
  over mutable tables.
- **Résumé rendering.** The document schema's layout checks, the rewriting of blocks
  from generated text, wrapping, pagination, the content stream and the PDF file with
  its cross-reference table (`ResumeDocument`, `AiService`, `GeneratedBlocks`, `Paginator`,
  `PaginatorTheorems`, `BlockTexts`, `VisibleBlocks`, `PageStream`, `PagePositions`,
  `RenderTheorems`, `PdfText`, `ContentStream`, `PdfWriter`, `PdfObjects`, `Decimal`,
  `DocumentPdf`). What is drawn is read back: texts, positions, colours and fonts from the
  bytes of a page's stream, and the page tree with its sizes and references from the objects
  of the file. The properties are those of ISO 32000-1, sections 7.2, 7.3.4.2, 7.3.8, 7.5.4,
  7.5.5, 7.7.3 and 9.4.
- **Translators.** Search text to an ILIKE pattern, against a matcher with an escape
  character (`SearchQuery`), and Markdown to a LaTeX body, against a reader that accepts
  only well-formed bodies and reports what they say (`InlineLatex`, `InlineMarks`,
  `InlineSpans`, `MarkdownLatex`, `LatexDocument`, `MarkdownLines`), and a second one that
  knows the optional label of LaTeX's `\item` (`ItemLabels`). Python's line splitting,
  stripping and heading pattern are functions (`PythonText`) with what they find said by
  taking the text apart (`TextShapes`).
- **Smaller concurrent protocols.** Revision numbering of a workspace (`Revisions`,
  `RevisionTheorems`, `RevisionCommits`, `RevisionApproval`, `RevisionRaces`,
  `WorkspaceRoutes`), the account-lifecycle outbox
  (`LifecycleOutbox`, `AbandonedEvents`, `LifecycleTasks`), the single-use password-reset token
  (`PasswordReset`, `PasswordResetService`) and the session-event leases (`LeaseStore`,
  `SessionLeases`).

How to read it: a protocol is a `State`, an `Event`, an `Enabled` guard and a `Next`
function; `IsRun` is any interleaving; failures and lost answers are events of their
own. Fields marked as history are read by no guard. Code that changes things step by
step is a method or a class proved against a function, and the function is what the
theorems are about. `dafny verify dfyconfig.toml` checks everything.

Assumptions shared by all parts: a statement, a commit or a Valkey script is atomic;
uncommitted inserts and row locks block as PostgreSQL does at READ COMMITTED; clocks do
not go back; clock, randomness and the answers of listeners, AI and database are
parameters or events; letter classes and case folding come in as functions
(`isDigit`, `lower`, `fold`, `Classes`), and so does `textwrap.wrap` (`WrapContract`:
chunks no longer than the width), the formatting of numbers (`FormatsContract`: digits,
signs, a point and an exponent) and the digits of numbered lists (`DigitContract`: none of
them is a mark that starts another kind of line).

## Findings

Where a promise of the documentation is not kept by the code, the code is modelled as it
is and the exact condition is proved:

- A refresh jti can be consumed twice: `claim_jti_for_rotation` does not look at the
  token's expiry, so a request that decoded the token before its expiry and claims it
  after the sweep deleted the first claim wins again. `AtMostOneWinner` is the
  if-and-only-if, `SweptClaimAllowsTwoChildPairs` a run in which both requests are handed
  their pair.
- An account-lifecycle event can be lost for good. The reconciler selects rows without
  `queued_at` only, so once a row is recorded as queued it depends on its jobs, and the
  queue gives a job up after its last attempt. A job whose worker died during an attempt is
  given up as well: nothing retries stalled jobs. An undelivered event can still be delivered
  if and only if its row is not recorded with every job given up (`LostIffAbandoned`);
  nothing brings such a row back (`AbandonedForever`), and it happens
  (`GivenUpJobLosesItsEvent`).
- The LaTeX of a list line whose text starts with a bracket does not say what the Markdown
  says: LaTeX takes the bracket for the optional label of `\item`, even after a space, and
  the body does not compile when the bracket is not closed. A body is read as meant if and
  only if no list line's text starts with `[` (`ReadsAsMeantIff`, `UnclosedLabelFails`,
  `ClosedLabelIsTaken`).
- `expected_revision_id` is checked before the highest number is read. The saved revision
  follows the expected one if and only if nobody commits in between
  (`CommitFollowsItsCheck`, `BothSavesLand`). In restore, generate and refine the check
  compares a value from the session's identity map with itself.
- An approved workspace is not immutable. The status is checked once, when a route reads the
  workspace, and never by the generation job. A request that begins on an approved workspace
  can still commit if and only if it is a job and the workspace is there
  (`ApprovedBeginnerCommitsIff`); something other than a job can still change the workspace
  if and only if a route is under way that can still commit (`ApprovedStillChangesIff`), and
  whether a request under way can commit does not depend on the approval (`CanCommitIff`).
  So after an approval the history grows by jobs and by requests in flight at it, and by
  nothing else (`ApprovedHistoryGrowsBy`). Both happen (`JobWritesToApproved`,
  `InFlightSaveWritesToApproved`).
- A restored reset key can outlive the token's `exp`, if and only if setting it takes
  longer than the fraction of a second that `int()` cut off (`RestoredKeyOutlives`,
  `RestoredKeyCanOutlive`). A request that decoded the token in time can then take the key
  and write a password after `exp`; `LateTakeIff` is the exact condition, and
  `PasswordWrittenAfterExp` a run. The first key outlives `exp` too, by the time between
  signing the token and storing the key.
- `revoke_all_tokens_for_user` answers 0, without an error, when counting the sessions
  raises; nothing has been revoked then (the contract of
  `Service.RevokeAllTokensForUser`).
- The object numbers in `n 0 R` references are one higher than the numbers the objects are
  written under (`IdsAreShifted`). The cross-reference table itself is right.
- A line can be drawn off the page, against "without silently dropping lines". Vertically
  every line stands between the margins and no two lines of a page in one place
  (`PageReadsBack`), but a column starts where the ones before it end, each of which takes at
  least 40 points: all columns of a row begin on the page if and only if the last one does
  (`ColumnsBeginOnPageIff`, `BeginsOnPageIff`), and widths that the schema accepts put one 45
  points past the right edge (`NarrowColumnsLeaveThePage`).
- A drawn line reads back exactly if and only if it has no carriage return
  (`ShownTextIsExact`).
- The lease keys' expiry is safe if the configured grace is not negative (`SetsAgree`) and
  loses leases for every negative grace (`GraceIsNeeded`); settings do not check its sign.
- Chain keys are injective because chain ids have no colon; with colons they collide
  (`ColonsMakeChainKeysCollide`).

## Model

| member | source | states |
|---|---|---|
| TokenStore.ChainKeyInjective | backend/mystic_auth/auth/token_logic/token_version_store.py:18-19 | two chain keys are equal only for the same e-mail and the same chain id, for chain ids without a colon |
| TokenStore.AccountKeyInjective | backend/mystic_auth/auth/token_logic/token_version_store.py:18-19 | two accounts never share a counter |
| TokenStore.AccountAndChainKeysDiffer | backend/mystic_auth/auth/token_logic/token_version_store.py:18-19 | no account key is a chain key |
| TokenStore.ColonsMakeChainKeysCollide | backend/mystic_auth/auth/token_logic/token_version_store.py:19 | with a colon in a chain id two different sessions share one counter |
| TokenInvariants.InvPreserved | backend/mystic_auth/auth/refresh_token_logic/refresh_token_service.py:26-155 | every statement of every request keeps the invariant of tables, lineages, claims and signatures |
| TokenInvariants.SteppedOk | backend/mystic_auth/auth/refresh_token_logic/refresh_token_service.py:58-151 | one step of a refresh leaves the request consistent with the tables it changed |
| TokenInvariants.ApplyKeepsDbInv | backend/mystic_auth/auth/token_logic/jwt_service.py:275-356 | embedded versions never exceed the stored ones, claims and sweeps stay accounted for, through every write |
| TokenTheorems.RunGrows | backend/mystic_auth/auth/token_logic/token_version_store.py:63-75 | over any stretch of any run no counter and no clock goes back and no token is unsigned |
| TokenTheorems.TwoReadsAreOne | backend/mystic_auth/auth/token_logic/token_version_store.py:39-61 | an account counter that matched at one instant and a chain counter that matched later both matched at the first instant |
| TokenTheorems.AcceptanceIsLinearizable | backend/mystic_auth/auth/token_logic/jwt_service.py:398-427 | whoever passes the two separate reads was current in both counters at one instant inside the call |
| TokenTheorems.DescendantsShareVersions | backend/mystic_auth/auth/refresh_token_logic/refresh_token_service.py:114-128 | every token obtained by rotation carries the versions, account and chain of its ancestors |
| TokenTheorems.RevocationIsFinal | backend/mystic_auth/auth/refresh_token_logic/refresh_token_service.py:58-151 | once a counter passed a token's version, that token and all its descendants, whenever signed, are stale forever and pass no later check |
| TokenTheorems.RevokedRefreshReturnsNothing | backend/mystic_auth/auth/refresh_token_logic/refresh_token_service.py:134-151 | a refresh in flight when its token goes stale hands out nothing, unless its second check had already read the counter that moved |
| TokenRevocation.StaleNextIff | backend/mystic_auth/auth/token_logic/token_version_store.py:63-122 | an event ends a token that was current in both counters if and only if it revokes the token's account or its chain |
| TokenRevocation.StaleIffRevoked | backend/mystic_auth/auth/token_logic/jwt_service.py:398-427 | in every reachable state a signed token carries the versions that its login read, by the request that signed the first token of its line, and it has stopped being current if and only if its account or chain was revoked after that read |
| TokenSingleUse.WonIffClaimed | backend/mystic_auth/auth/token_logic/jwt_service.py:275-356 | a jti has been won exactly when its claim row is there or was swept |
| TokenSingleUse.AtMostOneWinner | backend/mystic_auth/auth/token_logic/jwt_service.py:275-356 | in a run a jti is won at most once if and only if no claim of it follows the sweep of its own claim |
| TokenSingleUse.LateClaimStraddles | backend/mystic_auth/procrastinate_tasks/session_cleanup_tasks.py:52-80 | such a late claim is made after the token's expiry by a request that decoded it before |
| TokenSingleUse.EachJtiHasOneChildPair | backend/mystic_auth/auth/refresh_token_logic/refresh_token_service.py:89-128 | over a whole run, across concurrent presentations, a jti gets one access and one refresh child at most |
| TokenSingleUse.OneLoginOnePath | backend/mystic_auth/auth/refresh_token_logic/refresh_token_service.py:89-128 | the refresh tokens of one login form a single path, and only its last can be unclaimed |
| TokenSingleUse.ChainBumpIsScoped | backend/mystic_auth/auth/token_logic/token_version_store.py:112-122 | a chain bump changes the verdict on no token of another chain |
| TokenSingleUse.ReplayRevokesExactlyTheChain | backend/mystic_auth/auth/refresh_token_logic/refresh_token_service.py:231-325 | detected reuse makes every earlier token of that chain stale for good and changes no other chain's verdict |
| TokenSingleUse.ReplayEndsItsChain | backend/mystic_auth/auth/refresh_token_logic/refresh_token_service.py:89-108 | a rotation that finds its jti claimed, is not let off when it checks and does not fail has revoked: every token of the chain signed until then is stale for good, and no other chain's verdict changed |
| TokenSingleUse.BenignReplayChangesNothing | backend/mystic_auth/auth/refresh_token_logic/refresh_token_service.py:99-108 | up to the verdict, and after a benign one, a replay has changed no counter and no claim and signed nothing |
| TokenReplay.ReplayIsForgivenIff | backend/mystic_auth/auth/token_logic/jwt_service.py:237-273 | over every run, while the claim of a jti stands: a replay that is checked changes no table and is let off if and only if the grace is positive, no more than it has passed since the claiming request claimed, and both requests came from one address; otherwise it goes on to revoke |
| TokenReplay.UnforgivenReplayRevokes | backend/mystic_auth/auth/refresh_token_logic/refresh_token_service.py:99-108 | the next step of a replay that is not let off makes every token of the chain signed until then stale for good and changes no verdict on another chain |
| TokenLifetimes.LifetimeIsExact | backend/mystic_auth/auth/token_logic/jwt_service.py:43-127 | every token of every run expires exactly its kind's lifetime after a known step: a login's after its own signature, a rotated one after the claim of its parent by the request that signed it |
| TokenSequential.VerificationAlone | backend/mystic_auth/auth/token_logic/jwt_service.py:156-207 | a verification that runs alone, step by step, accepts exactly the unexpired tokens of the expected type whose versions equal both counters, and changes nothing |
| TokenSequential.RefreshAlone | backend/mystic_auth/auth/refresh_token_logic/refresh_token_service.py:26-155 | a refresh that runs alone: what is not rotatable changes nothing; an unclaimed token is claimed and two children of the same login and versions are signed and handed out; a claimed one is let off as a repeat or its chain's counter, and no other, moves by one |
| TokenSequential.LoginAlone | backend/mystic_auth/auth/token_logic/jwt_service.py:43-127 | a login's token is of the kind, account and chain asked for, carries both counters as they stand and lives for its kind's time |
| TokenCounterexample.SweptClaimAllowsTwoChildPairs | backend/mystic_auth/procrastinate_tasks/session_cleanup_tasks.py:52-80 | a run in which two requests are each handed a pair rotated from the same refresh token, because its claim was swept in between |
| RefreshTokenService.EarliestBatch | backend/mystic_auth/procrastinate_tasks/session_cleanup_tasks.py:64-72 | a batch of the earliest expired claims of any size up to their number exists |
| RefreshTokenService.Service.GetVersion | backend/mystic_auth/auth/token_logic/token_version_store.py:30-37 | an absent counter reads as zero |
| RefreshTokenService.Service.BumpVersion | backend/mystic_auth/auth/token_logic/token_version_store.py:63-122 | the counter, the cache and the answer when the database confirms, does nothing or commits without an answer, and when the cache fails |
| RefreshTokenService.Service.IsCurrentVersion | backend/mystic_auth/auth/token_logic/jwt_service.py:398-427 | true exactly when both counters equal the token's versions |
| RefreshTokenService.Service.VerifyToken | backend/mystic_auth/auth/token_logic/jwt_service.py:156-207 | accepted exactly when unexpired, of the expected type and current |
| RefreshTokenService.Service.ClaimJtiForRotation | backend/mystic_auth/auth/token_logic/jwt_service.py:275-356 | an unclaimed jti gets this caller's row, a claimed one keeps the row it has, which is returned |
| RefreshTokenService.Service.IsBenignDuplicateRotation | backend/mystic_auth/auth/token_logic/jwt_service.py:237-273 | the grace-window verdict on a claimed jti |
| RefreshTokenService.Service.RevokeAllTokensForUser | backend/mystic_auth/auth/refresh_token_logic/refresh_token_service.py:158-189 | the reported number and the counter for every way the call can go; after a bump every token of the account signed so far is stale, and no other account's verdict changes |
| RefreshTokenService.Service.RevokeAllTokensForUserExceptChain | backend/mystic_auth/auth/refresh_token_logic/refresh_token_service.py:192-229 | the exempt chain's old tokens end too; only the reported number leaves one session out |
| RefreshTokenService.Service.RevokeChainForUser | backend/mystic_auth/auth/refresh_token_logic/refresh_token_service.py:232-257 | every token of the chain signed so far goes stale, no other chain's verdict changes |
| RefreshTokenService.Service.RefreshTokens | backend/mystic_auth/auth/refresh_token_logic/refresh_token_service.py:26-155 | undisturbed, a current unclaimed refresh token yields a current child pair and is consumed; a replay yields nothing and revokes the chain unless benign |
| RefreshTokenService.Service.ReplayAfterRotation | backend/mystic_auth/auth/refresh_token_logic/refresh_token_service.py:99-108 | rotating and then replaying from elsewhere leaves the freshly issued pair unusable |
| RefreshTokenService.Service.PurgeConsumedRefreshTokens | backend/mystic_auth/procrastinate_tasks/session_cleanup_tasks.py:60-80 | exactly the expired claims are gone, and the result is their number |
| RefreshTokenService.Service.DeleteBatch | backend/mystic_auth/procrastinate_tasks/session_cleanup_tasks.py:64-75 | one delete takes expired claims only, the earliest first, at most 5000 of them |
| SearchQuery.EscapedTextIsLiteral | backend/mystic_auth/core/search_query.py:21-25 | escaped text in a pattern matches itself and nothing else, whatever follows it |
| SearchQuery.PatternMeansContains | backend/mystic_auth/core/search_query.py:12-26 | the pattern matches a string exactly when the string contains the value, case folded |
| Strings.SequentialReplacesEscape | backend/mystic_auth/core/search_query.py:21-25 | three replaces one after the other, the escape character first, equal one escape per character |
| PdfText.DrawnTextReadsBack | backend/app/resume_builder/render_service.py:30-31 | a literal-string reader gets back the text with its line ends normalised, for any text |
| PdfText.DrawnTextIsExact | backend/app/resume_builder/render_service.py:30-31 | the reader gets back exactly the text if and only if it has no carriage return |
| PdfText.ShownTextIsExact | backend/app/resume_builder/render_service.py:107-112 | the same for the operand of the encoded show operator |
| ResumeDocument.SizeTellsDuplicates | backend/app/resume_builder/document_schema.py:104-108 | comparing a list's length with its set's size detects duplicates exactly |
| ResumeDocument.LayoutIsPermutation | backend/app/resume_builder/document_schema.py:102-111 | the three reference checks pass exactly when ids are distinct and the references are a permutation of them |
| ResumeDocument.EachBlockReferencedOnce | backend/app/resume_builder/document_schema.py:102-111 | in a valid layout each block is referenced exactly once |
| ResumeDocument.LayoutErrorIs | backend/app/resume_builder/document_schema.py:102-111 | which of the errors is reported, each if and only if its own condition holds and those before it do not |
| AiService.MarkdownToBlocks | backend/app/resume_builder/ai_service.py:7-23 | the two loops compute the sorted sections and the rewritten blocks |
| AiService.SectionsWellKept | backend/app/resume_builder/ai_service.py:8-17 | section keys stay distinct and match the stored lists, and the current section exists |
| AiService.EachSectionHoldsItsTexts | backend/app/resume_builder/ai_service.py:8-17 | the sections are the headings in order of first appearance, and each holds exactly the lines that stand under it, stripped, in order |
| AiService.EveryLineIsKept | backend/app/resume_builder/ai_service.py:11-17 | the lines of all sections are, as a multiset, the stripped lines that are neither blank nor a heading: none is lost, repeated or changed |
| AiService.GenerationKeepsLayout | backend/app/resume_builder/ai_service.py:26-28 | a document with generated blocks passes and fails the layout checks exactly as before, for any generated text |
| GeneratedBlocks.BlockGetsItsSection | backend/app/resume_builder/ai_service.py:18-22 | a rewritten block gets the lines under the first heading that stands in its title or type, or in which one of those stands, and none if there is no such heading; lists get them as bullets; nothing else of a block changes |
| GeneratedBlocks.StripBulletIs | backend/app/resume_builder/ai_service.py:17 | dashes, asterisks and spaces at the start of a line are taken away, and nothing else |
| Paginator.LayOutBlock | backend/app/resume_builder/render_service.py:40-51 | the loops over values and lines compute the block's wrapped lines and the blank line after them |
| Paginator.WrappedLinesFit | backend/app/resume_builder/render_service.py:47-51 | no laid-out line is longer than the wrap width |
| TextShapes.SplitLinesIs | backend/app/resume_builder/render_service.py:44 | the lines of a text with their line ends put back are the text, and no pair of carriage return and line feed is split |
| TextShapes.StripIs | backend/app/resume_builder/render_service.py:44 | stripping takes away white space at both ends, all of it and nothing else |
| BlockTexts.ValueLinesAre | backend/app/resume_builder/render_service.py:42-46 | a value shows exactly its texts that are not blank, by index and in order, with a bullet if it is a list |
| BlockTexts.BlockLinesAre | backend/app/resume_builder/render_service.py:40-51 | a block shows its title, whose first line is its only heading, then every text of its content that is not blank, each as `wrap` cuts it, and an empty line |
| Paginator.GeometryIs | backend/app/resume_builder/render_service.py:62-68 | margin and line height are the largest whole numbers within the style, and a page has as many lines and a line as many characters as fit, no fewer and no more |
| Paginator.ValidStyleBounds | backend/app/resume_builder/document_schema.py:89-90 | for every valid style and paper the wrap width is at most 115 and the page holds several lines |
| Paginator.LoopProgress | backend/app/resume_builder/render_service.py:71-83 | each round of the loop takes a line or finishes a row |
| Paginator.PaginateSourcePage | backend/app/resume_builder/render_service.py:68-85 | the while loop computes the pagination function and terminates |
| Paginator.PaginateRows | backend/app/resume_builder/render_service.py:61-86 | all source pages are paginated in order, with one empty page for an empty result |
| PaginatorTheorems.SourcePageConserved | backend/app/resume_builder/render_service.py:67-85 | the fragments on the output pages of a source page give every row back, column by column and in order |
| PaginatorTheorems.DocumentConserved | backend/app/resume_builder/render_service.py:61-86 | the same for the whole document: nothing lost, repeated or moved to another source page |
| PaginatorTheorems.PagesFit | backend/app/resume_builder/render_service.py:69-85 | rows and the gaps between them never overrun the available lines |
| PaginatorTheorems.CutRowsFillThePage | backend/app/resume_builder/render_service.py:74-81 | a row that was cut has used the page up, so the second half of the closing test never decides |
| PaginatorTheorems.FittingRowIsWhole | backend/app/resume_builder/render_service.py:72-83 | a row that fits on what is left of its page is not cut |
| PaginatorTheorems.LongRowIsCut | backend/app/resume_builder/render_service.py:72-83 | one that does not is cut where the page ends, and its rest opens the next page |
| PaginatorTheorems.PagesAreFull | backend/app/resume_builder/render_service.py:81-85 | only the last output page of a source page may have room left |
| PaginatorTheorems.PageCountBound | backend/app/resume_builder/render_service.py:67-85 | R rows of total height H fill at most 1 + (H + R) / (available - 1) pages |
| PageStream.DrawPage | backend/app/resume_builder/render_service.py:96-110 | the nested loops emit the page's commands at the computed positions |
| PageStream.PageWithin | backend/app/resume_builder/render_service.py:96-110 | on a page that fits, every baseline lies between one line above the bottom margin and the top margin |
| PageStream.PageTextsDrawn | backend/app/resume_builder/render_service.py:101-108 | the texts shown are the page's lines in order, uncut |
| PageStream.ColourReads | backend/app/resume_builder/render_service.py:34-37 | two hexadecimal digits each give red, green and blue |
| PageStream.FontsAre | backend/app/resume_builder/render_service.py:27 | Georgia is set in Times, every other family in Helvetica, and resources are named without the hyphen |
| PagePositions.PageShown | backend/app/resume_builder/render_service.py:96-110 | read off the commands of a page, line j of a cell stands j line heights below its row's top and in its colour, column 0 at the margin and every other where the one before it ends, row 0 at the top margin and every other a line below the one before it |
| PagePositions.LinesApart | backend/app/resume_builder/render_service.py:96-110 | no two lines of a page are shown in one place |
| PagePositions.GridOnPage | backend/app/resume_builder/render_service.py:96-110 | on a page that fits, every line stands between the top and the bottom margin and not left of the left one |
| PagePositions.BeginsOnPageIff | backend/app/resume_builder/render_service.py:99-109 | a line begins left of the right edge if and only if its column does |
| PagePositions.ColumnsBeginOnPageIff | backend/app/resume_builder/render_service.py:99-109 | all columns of a row begin on the page if and only if the last one does |
| PagePositions.NarrowColumnsLeaveThePage | backend/app/resume_builder/render_service.py:102 | widths that the schema accepts put the fourth column of an A4 page past its right edge |
| RenderTheorems.ValidDocumentResolves | backend/app/resume_builder/render_service.py:54-65 | in a valid layout every block lookup of the renderer succeeds |
| VisibleBlocks.VisibleBlockDrawnOnce | backend/app/resume_builder/render_service.py:54-68 | the lines laid out are those of the visible blocks before a visible one, its own, and those of the visible blocks after it, and nothing else refers to it |
| VisibleBlocks.VisibleBlocksInOrder | backend/app/resume_builder/render_service.py:54-68 | the lines laid out for a valid document are those of its visible blocks, each exactly once, in the order of their references |
| VisibleBlocks.PagesHoldVisibleBlocks | backend/app/resume_builder/render_service.py:54-86 | the lines on all pages of a valid document are those of its visible blocks, each as often as the blocks have it, and no others |
| VisibleBlocks.RowsKeepTheirColumns | backend/app/resume_builder/render_service.py:54-85 | every row on every page of a valid document is a row of the layout: the same columns with the same widths, and in each the same stretch of the lines of that column's visible blocks |
| VisibleBlocks.HiddenBlocksChangeNothing | backend/app/resume_builder/render_service.py:54-58 | whatever is changed in hidden blocks, every page is drawn as before |
| RenderTheorems.ValidDocumentConserved | backend/app/resume_builder/render_service.py:61-86 | for every valid document the pages hold the wrapped lines of every column of every row, complete and in order, and are never the empty fallback |
| RenderTheorems.EveryLineIsDrawnOnThePage | backend/app/resume_builder/render_service.py:61-112 | for every valid document each page's baselines are on the page and the cut to 180 characters never fires |
| ContentStream.StreamReads | backend/app/resume_builder/render_service.py:106-112 | a reader of tokens, operands and text operators finds in a page's bytes every text, with its line ends normalised, where and in the colour and font that the commands before it set |
| DocumentPdf.RenderDocument | backend/app/resume_builder/render_service.py:115-149 | the file is written from the objects of the streams of the document's pages |
| DocumentPdf.PageReadsBack | backend/app/resume_builder/render_service.py:89-112 | for every valid document the bytes of a page read as its lines, row after row and column after column, each in its place and colour and in the document's font, between the margins, uncut, and no two in one place |
| DocumentPdf.ExactIffNoCr | backend/app/resume_builder/render_service.py:30-31 | what is read is exactly the texts if and only if none has a carriage return |
| DocumentPdf.PagesAreInTheFile | backend/app/resume_builder/render_service.py:115-149 | the file of every valid document has a catalog that names the page tree, a tree that counts the pages and lists them in order, and for each page, at the position of its number, a page object with the paper's size and the document's font and a content object with the page's stream |
| Decimal.ParseDec | backend/app/resume_builder/render_service.py:144-148 | decimal numerals read back |
| Decimal.PadLength | backend/app/resume_builder/render_service.py:147 | a padded offset has ten digits exactly while it is below ten to the tenth |
| PdfWriter.BuildObjects | backend/app/resume_builder/render_service.py:119-139 | the object list holds font, pages, catalog and per stream its content and page object, at the source's places (`PdfObjects.ObjectsRead` says what they read as), and the root id points past the end |
| PdfWriter.WriteBodies | backend/app/resume_builder/render_service.py:140-144 | the byte loop writes every object and records where it starts |
| PdfWriter.WriteObjects | backend/app/resume_builder/render_service.py:140-149 | the output is header, objects, table and trailer |
| PdfWriter.RenderPdf | backend/app/resume_builder/render_service.py:119-149 | the file is the one written from the objects built for the given streams |
| PdfWriter.EntriesPointAtObjects | backend/app/resume_builder/render_service.py:141-147 | entry n of the table gives the byte position of the object written as n, for every number of streams while offsets have ten digits |
| PdfWriter.EntryLength | backend/app/resume_builder/render_service.py:147 | an entry is twenty bytes exactly while its offset is below ten to the tenth |
| PdfWriter.StartXrefIsXref | backend/app/resume_builder/render_service.py:145-148 | the number before the end-of-file mark is the position of the table, and the size is the highest number plus one |
| PdfWriter.StreamReadsBack | backend/app/resume_builder/render_service.py:126 | a reader that trusts the length entry gets the stream's bytes |
| PdfObjects.PageReads | backend/app/resume_builder/render_service.py:134-137 | read from a page object: its parent, its size as width and height from the origin, its font and its content |
| PdfObjects.TreeReads | backend/app/resume_builder/render_service.py:138 | read from the page tree: the pages in order and their number |
| PdfObjects.ObjectsRead | backend/app/resume_builder/render_service.py:133-139 | read from the objects: catalog, tree, pages, font and contents refer to one another, every page has the given size, and page i has stream i |
| PdfObjects.EntryLeadsToObject | backend/app/resume_builder/render_service.py:141-147 | entry n of the table leads to an object that says it is number n and is object n to its end, while offsets fit in ten digits |
| PdfObjects.TailReads | backend/app/resume_builder/render_service.py:145-148 | read from the end of the file: where the table is, how many entries it has, the same number in the trailer, and the root |
| PdfWriter.IdsAreShifted | backend/app/resume_builder/render_service.py:125-144 | the ids used in references are one higher than the numbers the objects are written under |
| InlineLatex.ReadEscaped | backend/app/document_generation/markdown_to_latex.py:14-36 | escaping is balanced, leaves nothing bare and reads back as the text |
| InlineLatex.MarksToGroup | backend/app/document_generation/markdown_to_latex.py:41-42 | turning a pair of marks into a group keeps text, brace depth and the count of marks, whatever it cuts across |
| InlineLatex.ReadBold | backend/app/document_generation/markdown_to_latex.py:41 | the bold substitution keeps what any readable text reads as |
| InlineLatex.ReadItalic | backend/app/document_generation/markdown_to_latex.py:42 | so does the italic substitution |
| InlineLatex.ReadUnderscores | backend/app/document_generation/markdown_to_latex.py:43-46 | escaping the underscores that are left makes the text readable where bare ones are refused |
| InlineLatex.InlineReadsBack | backend/app/document_generation/markdown_to_latex.py:39-47 | for every text the result is balanced, has no bare special character and reads back as the text; of its asterisks and underscores four are in every bold group, two in every italic one, the rest stay text |
| InlineMarks.BoldRefines | backend/app/document_generation/markdown_to_latex.py:41 | the bold substitution changes nothing but pairs of asterisks into the ends of groups, each in its place |
| InlineMarks.ItalicRefines | backend/app/document_generation/markdown_to_latex.py:42 | the italic substitution changes nothing but single marks into the ends of groups, each in its place |
| InlineMarks.EveryMarkIsInPlace | backend/app/document_generation/markdown_to_latex.py:39-47 | for every text each asterisk and underscore is read where it stands, as itself or as the start or end of a group, and every other character is read where it stands |
| InlineSpans.BoldIsFirst | backend/app/document_generation/markdown_to_latex.py:41 | where the bold pattern matches, its leftmost shortest match becomes a group and what follows it is treated likewise |
| InlineSpans.NoBold | backend/app/document_generation/markdown_to_latex.py:41 | without a match the bold substitution changes nothing |
| InlineSpans.ItalicIsFirst | backend/app/document_generation/markdown_to_latex.py:42 | the same for the italic pattern |
| InlineSpans.NoItalic | backend/app/document_generation/markdown_to_latex.py:42 | without a match the italic substitution changes nothing |
| InlineSpans.BoldBecomesGroup | backend/app/document_generation/markdown_to_latex.py:39-47 | a text between pairs of asterisks becomes a bold group where it stands, whatever follows |
| InlineSpans.ItalicBecomesGroup | backend/app/document_generation/markdown_to_latex.py:39-47 | a text between two asterisks or two underscores becomes an italic group where it stands |
| MarkdownLatex.MarkdownToLatexBody | backend/app/document_generation/markdown_to_latex.py:50-101 | the line loop with its open environment writes every longest run of list lines of one kind in an environment of its own |
| MarkdownLatex.WriteLine | backend/app/document_generation/markdown_to_latex.py:62-98 | one round closes, opens and writes what the line and the open environment call for |
| MarkdownLatex.RestStep | backend/app/document_generation/markdown_to_latex.py:62-98 | round by round the loop produces the grouping by longest runs |
| LatexDocument.GroupedIsNested | backend/app/document_generation/markdown_to_latex.py:56-60 | each begin meets an end of its kind before another begin, items are inside, headings outside, none is left open |
| LatexDocument.BodyReadsBack | backend/app/document_generation/markdown_to_latex.py:50-101 | for every Markdown input environments, items, headings, braces and special characters are well formed from start to end, and the body says the headings, lists and paragraphs in order, with every asterisk and underscore accounted for, for a reader without item labels |
| TextShapes.HeadingIff | backend/app/document_generation/markdown_to_latex.py:10 | hashes up to the limit, white space and a text are a heading of that level, and nothing else is |
| MarkdownLines.BlockOfIff | backend/app/document_generation/markdown_to_latex.py:62-98 | a stripped line is a heading, an item, a numbered item or a paragraph of itself if and only if it has that form |
| MarkdownLines.BodySaysItsLines | backend/app/document_generation/markdown_to_latex.py:50-101 | for every Markdown text the body is well formed and a reader finds in it, line by line, what the lines are: headings with their levels, items in environments of their kinds, opened and closed where the kind changes, and paragraphs |
| ItemLabels.ReadsAsMeantIff | backend/app/document_generation/markdown_to_latex.py:78-95 | a reader that knows item labels reads the same if and only if no list line's text starts with a bracket, and otherwise fails or meets a label |
| ItemLabels.UnclosedLabelFails | backend/app/document_generation/markdown_to_latex.py:78-85 | a list line that opens a bracket gives a body whose label never ends |
| ItemLabels.ClosedLabelIsTaken | backend/app/document_generation/markdown_to_latex.py:78-85 | a check-box line loses its box to the label |
| Revisions.InvPreserved | backend/app/api/resume_builder_routes/resume_builder_routes.py:160-182 | every statement of every request keeps the history numbered without gaps |
| Revisions.InsertTakesTheTurn | backend/app/resume_builder/models.py:29 | the unique constraint lets one insert at a time hold the next number |
| Revisions.FreeNumberIsNext | backend/app/resume_builder/models.py:29 | a number within reach is taken exactly when it is not the next one |
| RevisionTheorems.NumbersAreExact | backend/app/api/resume_builder_routes/resume_builder_routes.py:120-182 | in every interleaving the committed numbers are 1..n, each once, and the pointer is at n |
| RevisionTheorems.EveryRevisionFollows | backend/app/api/resume_builder_routes/resume_builder_routes.py:160-256 | a revision holds the text its request was made to store, a restored one its source's; a job's revision k was made from revision k - 1; a save that named a revision read that one as current |
| RevisionTheorems.CommittedAsAsked | backend/app/api/resume_builder_routes/resume_builder_routes.py:174-181 | what a request has committed is under its id, of the kind and with the text it began with |
| RevisionTheorems.HistoryIsAppendOnly | backend/app/api/resume_builder_routes/resume_builder_routes.py:160-182 | until deletion no revision is changed, renumbered or lost |
| RevisionTheorems.CommitFollowsItsCheck | backend/app/api/resume_builder_routes/resume_builder_routes.py:162-180 | a saved revision directly follows the one it was checked against if and only if nobody committed between the check and the count |
| RevisionCommits.CanCommitIff | backend/app/api/resume_builder_routes/resume_builder_routes.py:160-256 | in every reachable state a request has committed or some continuation lets it commit, if and only if what it still has to read is or can come to be there, and its number, once counted, is still the next one |
| RevisionCommits.BeginnerCommitsIff | backend/app/api/resume_builder_routes/resume_builder_routes.py:162-166 | a request can commit when it begins if and only if the workspace is there, an approved one meets a job, the expected revision is the current one, and the source of a restore is there, about to be, or an id not yet drawn |
| RevisionApproval.ApprovedRefusesReaders | backend/app/api/resume_builder_routes/resume_builder_routes.py:163-164 | a route that reads the workspace after its approval has stopped, for good |
| RevisionApproval.ApprovedBeginnerCommitsIff | backend/app/api/resume_builder_routes/job_routes.py:37-61 | a request that begins on an approved workspace can still commit if and only if it is a job and the workspace is there |
| RevisionApproval.ApprovedHistoryGrowsBy | backend/app/api/resume_builder_routes/resume_builder_routes.py:163-182 | after an approval a revision is committed by a job or by a request that was under way at the approval, and by nothing else |
| RevisionApproval.ApprovedStillChangesIff | backend/app/api/resume_builder_routes/resume_builder_routes.py:163-182 | in an approved state some continuation lets a request other than a job commit if and only if such a request is under way and can still commit |
| RevisionRaces.BothSavesLand | backend/app/api/resume_builder_routes/resume_builder_routes.py:165-180 | a run in which two saves that expect the same revision both succeed |
| RevisionRaces.JobWritesToApproved | backend/app/api/resume_builder_routes/job_routes.py:37-61 | a run in which a job adds a revision to an approved workspace |
| RevisionRaces.InFlightSaveWritesToApproved | backend/app/api/resume_builder_routes/resume_builder_routes.py:163-181 | a run in which a save that read the workspace before its approval commits after it |
| WorkspaceRoutes.WorkspaceRow.constructor | backend/app/api/resume_builder_routes/resume_builder_routes.py:120-137 | a new workspace has revision 1 as its current one |
| WorkspaceRoutes.WorkspaceRow.NextNumber | backend/app/api/resume_builder_routes/resume_builder_routes.py:171-173 | the latest number plus one is the length of the history plus one |
| WorkspaceRoutes.WorkspaceRow.SaveDocument | backend/app/api/resume_builder_routes/resume_builder_routes.py:160-182 | which refusal each state gives, and the whole new state otherwise |
| WorkspaceRoutes.WorkspaceRow.RestoreRevision | backend/app/api/resume_builder_routes/resume_builder_routes.py:247-256 | a restore appends the old document as a new revision or refuses, also for a stored document that does not validate, and changes nothing |
| WorkspaceRoutes.WorkspaceRow.Assisted | backend/app/api/resume_builder_routes/resume_builder_routes.py:185-218 | generation and refinement append their document or refuse, also when it does not validate, and change nothing |
| WorkspaceRoutes.WorkspaceRow.RunGenerationJob | backend/app/api/resume_builder_routes/job_routes.py:37-66 | the job appends without looking at the status, and fails only without workspace or text |
| WorkspaceRoutes.WorkspaceRow.Approve | backend/app/api/resume_builder_routes/resume_builder_routes.py:259-265 | only the status changes |
| WorkspaceRoutes.WorkspaceRow.Delete | backend/app/api/resume_builder_routes/resume_builder_routes.py:153-157 | the revisions go with the workspace |
| LifecycleOutbox.InvPreserved | backend/mystic_auth/user_lifecycle/account_lifecycle_events.py:115-142 | every statement of creators, reconcilers and workers keeps locks, jobs and records accounted for |
| LifecycleOutbox.JobsAreAccountedFor | backend/mystic_auth/user_lifecycle/account_lifecycle_events.py:115-142 | a row's jobs are the recorded one, the one in doubt and one per failed commit; so a queued row has a job and without failed commits there is at most one |
| AbandonedEvents.NeitherPendingNorQueuedIffAbandoned | backend/mystic_auth/procrastinate_tasks/account_lifecycle_tasks.py:19-45 | an undelivered row is neither selected by the reconciler nor waits in the queue if and only if it is recorded as queued and all its jobs were given up |
| AbandonedEvents.AbandonedForever | backend/mystic_auth/procrastinate_tasks/account_lifecycle_tasks.py:36-59 | nothing that callers, workers and the reconciler do brings such a row back |
| AbandonedEvents.AbandonedBy | backend/mystic_auth/procrastinate_tasks/account_lifecycle_tasks.py:19-31 | a row gets into that state by the last attempt of one of its jobs or by a commit that records it after all its jobs were given up, and by nothing else |
| AbandonedEvents.LostIffAbandoned | backend/mystic_auth/procrastinate_tasks/account_lifecycle_tasks.py:26-59 | an undelivered event can still be delivered if and only if its row is not in that state |
| AbandonedEvents.GivenUpJobLosesItsEvent | backend/mystic_auth/procrastinate_tasks/account_lifecycle_tasks.py:19-31 | a run in which the last attempt of a job fails and its event is lost |
| LifecycleOutbox.OneCallerQueues | backend/mystic_auth/user_lifecycle/account_lifecycle_events.py:80-97 | of all callers that race for a row one at most gets a job id |
| LifecycleOutbox.HoldersExclude | backend/mystic_auth/user_lifecycle/account_lifecycle_events.py:117-127 | while one caller holds a row's lock every other gets nothing |
| LifecycleOutbox.FailedCommitStaysEligible | backend/mystic_auth/user_lifecycle/account_lifecycle_events.py:129-142 | after a failure before the commit, a lost answer to the defer included, the row is free and, until delivered, pending again |
| LifecycleOutbox.RecordsAreFinal | backend/mystic_auth/user_lifecycle/account_lifecycle_events.py:69-77 | who queued and who delivered a row is written once |
| LifecycleTasks.BatchExists | backend/mystic_auth/procrastinate_tasks/account_lifecycle_tasks.py:39-44 | the ordered, limited selection always has an answer |
| LifecycleTasks.Outbox.Queue | backend/mystic_auth/user_lifecycle/account_lifecycle_events.py:80-142 | the row, the job and the answer for each way the call can end, a commit whose answer is lost included |
| LifecycleTasks.Outbox.DispatchPending | backend/mystic_auth/procrastinate_tasks/account_lifecycle_tasks.py:36-59 | the hundred oldest pending rows get one try each, the jobs are those deferred in order, which rows are then recorded; the count is the number of answers with a job |
| LifecycleTasks.Outbox.Deliver | backend/mystic_auth/procrastinate_tasks/account_lifecycle_tasks.py:26-31 | a heard event marks its row delivered once, a failure touches no row |
| PasswordReset.UsesNeverGrow | backend/mystic_auth/auth/password_logic/password_reset_service.py:107-164 | a step moves the token's one use along or loses it |
| PasswordReset.OneUsePerToken | backend/mystic_auth/auth/password_logic/password_reset_service.py:76-164 | key, requests holding it and passwords written come to one at most, and only requests that decoded in time write |
| PasswordReset.WrittenIsFinal | backend/mystic_auth/auth/password_logic/password_reset_service.py:158-177 | after a password was written nobody holds the token again |
| PasswordReset.RejectionGivesBack | backend/mystic_auth/auth/password_logic/password_reset_service.py:132-164 | after a rejected password or an update that finds no row, with a second left, the key can be set and taken again |
| PasswordReset.ExceptionLosesTheLink | backend/mystic_auth/auth/password_logic/password_reset_service.py:174-181 | an exception after the key was taken loses the link for good: no key and no holder exist again |
| PasswordReset.RestoredKeyOutlives | backend/mystic_auth/auth/password_logic/password_reset_service.py:107-116 | a restored key outlives the token's expiry if and only if setting it took longer than the truncated fraction |
| PasswordReset.RestoredKeyCanOutlive | backend/mystic_auth/auth/password_logic/password_reset_service.py:114-116 | a run in which it does |
| PasswordReset.HoldersDecodedInTime | backend/mystic_auth/auth/password_logic/password_reset_service.py:119-127 | whoever holds the key decoded the token before its limit |
| PasswordReset.LateTakeIff | backend/mystic_auth/auth/password_logic/password_reset_service.py:107-127 | the key is taken at or after the expiry if and only if the key that is there was stored or restored with a deadline beyond it and has not reached that deadline |
| PasswordReset.PasswordWrittenAfterExp | backend/mystic_auth/auth/password_logic/password_reset_service.py:107-160 | a run in which a restored key is taken and a password written after the expiry |
| PasswordResetService.Service.RestoreToken | backend/mystic_auth/auth/password_logic/password_reset_service.py:107-116 | undelayed, the key is set again only with a second left and never past the expiry |
| PasswordResetService.Service.GetDel | backend/mystic_auth/auth/password_logic/password_reset_service.py:125 | the key is gone, and the answer says whether it was alive |
| PasswordResetService.Service.ResetPassword | backend/mystic_auth/auth/password_logic/password_reset_service.py:76-181 | both answers, the reason of every failure in the order of the checks and of the calls that can raise, the passwords, and whether the link is untouched, spent or given back |
| PasswordResetService.Service.ResetTwice | backend/mystic_auth/auth/password_logic/password_reset_service.py:76-177 | a link that has reset a password resets none again, however late and with whatever password |
| PasswordResetService.StrengthIs | backend/mystic_auth/auth/password_logic/password_service.py:41-52 | a password is refused if and only if it is short or has no character of some class, and is not weakened by more characters |
| LeaseStore.AcquireAdmits | backend/mystic_auth/user_session/session_events.py:60-63 | a script admits exactly when both sets without their expired members are below their limits |
| LeaseStore.AcquireSpec | backend/mystic_auth/user_session/session_events.py:54-69 | what an admission and a refusal leave in each set, and its deadline |
| LeaseStore.ReleaseSpec | backend/mystic_auth/user_session/session_events.py:71-77 | the token leaves its two sets and nothing else changes |
| LeaseStore.Valkey.EvalAcquire | backend/mystic_auth/user_session/session_events.py:54-69 | the commands one by one have the script's effect and answer |
| LeaseStore.Valkey.EvalRelease | backend/mystic_auth/user_session/session_events.py:71-77 | the commands one by one have the script's effect; the two deletions find nothing left |
| SessionLeases.InvPreserved | backend/mystic_auth/user_session/session_events.py:86-127 | openings, closings and the passing of time keep sets, deadlines and leases in agreement |
| SessionLeases.TickKeepsStored | backend/mystic_auth/user_session/session_events.py:47-48 | a whole key is not dropped before the last of its leases |
| SessionLeases.LimitsHold | backend/mystic_auth/user_session/session_events.py:62-65 | unexpired leases of an account or an address never exceed its limit |
| SessionLeases.SetsAgree | backend/mystic_auth/user_session/session_events.py:64-67 | a lease is unexpired in its account set exactly when it is in its address set, exactly when it is active |
| SessionLeases.AdmittedIffBelowLimits | backend/mystic_auth/user_session/session_events.py:86-113 | admission only below both limits, and exactly then when the caller's clock is up to date |
| SessionLeases.GraceIsNeeded | backend/mystic_auth/user_session/session_events.py:48 | with any negative grace an unexpired lease is dropped with its key |

## Left out

- Legacy tokens without version claims, and the Valkey revocation markers for them: the token theorems are about versioned tokens.
- JWT signatures, Argon2 and SHA-256: a decoded token is a record, `hash` is a parameter, lease keys are taken to be injective.
- The `user_sessions` mirror: it is best effort, and a login between an account bump and the delete of its rows breaks its agreement with the tokens.
- The insert of a claim and the read of its row are one event; failures around it are events of their own.
- Timestamps in the token model are whole ticks of one clock; tokens are compared with it as integers.
- Margin and line height are computed over real numbers, where the code uses floating point; column widths likewise.
- The digits of font sizes and colours in the content stream: they are a parameter, of which only the contract on its characters is used.
- InlineLatex.InlineReadsBack: counts asterisks and underscores and leaves their places to InlineMarks.EveryMarkIsInPlace.
- LatexDocument.BodyReadsBack: its reader has no item labels, which ItemLabels adds, and its tokens leave asterisks and underscores out.
- Of LaTeX, other commands, catcodes and packages: the two readers know the commands that the translator writes.
- The retry delays and the attempt count of the queue: an attempt ends in success, another try or giving up; whether listeners heard an event whose delivery was never marked is not recorded.
- A document is its text up to the form in which validation writes it; a job stores its document unvalidated, so the text of its restore can differ in form.
- Job status rows of generation jobs: a job that loses the race for a number stops with its rows rolled back; its status then stays "running", which is not modelled.
- Render jobs, artifacts, downloads and previews: they only read a revision.
- The text of knowledge search, prompts and e-mails; a generated text is a parameter.
- The purge of deleted accounts: its row lock does not last until the delete.
- Policy evaluation, rate limits, audit log, migrations, settings and HTTP handling: only easy members.
