# A verified model of the platform's guarded state and text

Eight parts of the repository, each modelled as its code behaves and proved to keep what the
code, its documentation or its tests promise. Everything is Dafny 4.11;
`dafny verify dfyconfig.toml` checks it all.

| files | what they model |
|---|---|
| `SodRules`, `SodDatabase`, `SodVerdicts`, `SodPlatform`, `SodTransactions` | separation of duties: the looping `sod_violation`, the triggers on memberships, waivers, roles and permission sets, first one statement at a time, with every verdict said from the tables' rows, then as interleaved transactions with row locks |
| `SupportGrants`, `SupportTerms`, `SupportCodes` | support grants: guard trigger, CHECK constraints and column grants of two roles together, what a grant may look like and until when it runs, and the per-tenant code behind its advisory lock |
| `MarkdownLines`, `MarkdownBlocks`, `MarkdownStreaming`, `MarkdownInline` | the answer renderer: the block loop, what a streamed prefix may still change, and the inline pattern |
| `MarkdownReading`, `MarkdownWriting`, `MarkdownRoundTrip`, `MarkdownSpans` | the same Markdown from the writer's side: lines and spans by their characters, a printer of every kind of block that knows nothing of the renderer, and the proof that the renderer reads back what it prints |
| `MoneyText`, `MoneyWords`, `MoneyGrammar`, `Decimal` | money as text, text as money, and money in Vietnamese words, with a listener that hears the number back and rules of wording that leave one reading per number |
| `RateLimit`, `RateVerdicts` | the per-caller window table and its pruning, and every verdict from the requests alone |
| `Idempotency`, `IdempotentAnswers` | the idempotency key: header, table, one request's hold on a key, many requests racing for it, and where every replayed answer came from |
| `EnvMerge`, `EnvLines` | the `.env` parser and merge, and the merged file line by line |
| `SqlSplitters`, `SqlQuotes`, `SqlStatements` | the three statement splitters of the migrations, a character-by-character reading of dollar quotes to judge them by, and what they look for in a line and hand on |
| `ChannelDeliveries`, `ChannelOutcomes` | notifications, the chat deliveries queued with them, expiry, pruning and audit; who is told, and what attempts count |
| `Options`, `Splitting`, `JsText`, `PyText` | shared: optional values, `split` and `join`, the two languages' whitespace and line rules |

## How the model is built

Code that changes state is a class or a method with loops, proved against a specification
function; the lemmas are about that function. `SodPlatform.Platform`, `SupportGrants.GrantTable`,
`RateLimit.RateLimiter`, `Idempotency.KeyTable`, `Idempotency.IdempotentOperation` and
`ChannelDeliveries.ChannelStore` hold the stored state. Interleavings are state machines whose
steps are the code's own statements: taking a lock, judging one rule, an insert, the look that
follows it, reading the clock, a takeover.

What an operation computes is said twice: by the specification function its method follows, and by
a law that names neither, in terms of the stored rows, the characters or the steps of a run
(`SodVerdicts`, `SupportTerms`, `MarkdownRoundTrip`, `MarkdownSpans`, `MoneyGrammar`, `RateVerdicts`,
`IdempotentAnswers`, `EnvLines`, `SqlStatements`, `ChannelOutcomes`).

Times are integers (reals for the rate limiter's monotonic clock), identifiers are numbers or
strings. A rule's key is its rank in the collation order the loop uses. Clocks are parameters. The
waiver lock argument assumes READ COMMITTED, as the migrations do. Where a row is reserved by
somebody the table does not name (`Idempotency.Row.holder`, `writer`), the model names them so that
the claims can be stated, as it remembers when a request looked (`lookedAt`) and the stamp it began
with (`since`); no modelled code reads those fields.

## What came out other than documented

* **Idempotency, takeover.** A request that lost its reservation to a takeover after five minutes,
  while still at work, can release or fill somebody else's reservation of the same key, although the
  code says a request never releases a key it did not reserve.
  `HarmlessExactlyWhenNoneIsTakenFromTheLiving` is exact about the acts: whatever any request could
  record or end with touches only a reservation it made, in every state of a run, if and only if no
  takeover in the run takes from a request still at work. `PromptHandlersKeepTheirKeys` is the form a
  deployment can see to: every handler that claims its key records, ends or dies within five minutes
  of the stamp on its reservation.
* **Idempotency, replays.** A replay can be the answer to a request the client never made, in two
  ways. `AReusedKeyAnswersTheWrongRequest`: a handler outlives its reservation and answers in the next
  one. `ADawdlingReaderAnswersTheWrongRequest`: a request looks at a stale reservation of its own kind,
  stalls before reading the clock, and then takes over a different request's, though every handler is
  prompt. `AnswersFitExactlyWhenNothingIsMixed` gives the exact condition, and
  `TimelyRunsReplayRightly` the deployment's: prompt handlers, and less than five minutes, less the
  longest a stamp may lag, between a look and the clock reading after it.
* **Env merge.** The script calls itself idempotent. Its result is on the parsed values, not on the
  text: `SecondMergeIsTheFirst` says exactly when the second run writes the same file,
  `SecondMergeMayRewrite` is a template where it does not, and from the second run on the text is stable.
* **Rate limit.** The fixed window admits at most `2L - 1` requests of one caller in any sixty
  seconds, not `2L`, and that bound is met for every `L`.
* **Streaming.** Line by line only the last block may still change. Character by character it is
  the last two, and `TheLastButOneMayChange` shows that two are needed.
* **Splitters.** The tagged splitter reads a line's quotes correctly exactly when nothing after the
  first close on the line leaves a quote open (`TaggedReadsTameLines`, and `TaggedReadsTameTexts` for
  whole texts). `TaggedMayCutAQuote` is a line it cuts inside a quote, and
  `FirstWildLineIsCutInside` says that it cuts inside one whenever the first line it misreads ends in
  a semicolon.

## Model

| member | source | states |
|---|---|---|
| SodRules.SodViolation | db/migrations/versions/f381f1694395_platform_sod_waiver_second_person_and_.py:54-93 | the loop returns the least-keyed rule that is broken and not validly waived, or nothing, and leaves locked exactly the waivers that excuse from the rules before it |
| SodRules.FirstViolation | db/migrations/versions/f381f1694395_platform_sod_waiver_second_person_and_.py:68-90 | the first offender in key order is the least of all offenders |
| SodRules.NullTenantAsksTheRulesAlone | db/migrations/versions/b9862fa13a80_platform_separation_of_duty_rules_guard_.py:92-114 | with a NULL tenant the looping function answers as the single two-argument query does, on every combination of roles and permission sets |
| SodRules.NoViolationIsSafe | db/migrations/versions/f381f1694395_platform_sod_waiver_second_person_and_.py:68-90 | no violation is found if and only if every broken rule is waivable and lifted by an open, confirmed waiver of that tenant |
| SodVerdicts.BrokenMeansCarried | db/migrations/versions/6b26771e549d_separation_of_duties_waivers_per_tenant.py:193-213 | a rule is broken exactly by a membership some role or permission set of which carries a left scope and some role or permission set a right one, in all four combinations of the two tables |
| SodVerdicts.WriteIsRefusedExactly | db/migrations/versions/6b26771e549d_separation_of_duties_waivers_per_tenant.py:100-118 | said from the rows alone: a membership is refused if and only if its keys carry both sides of a rule that is not waivable or that no open, confirmed waiver of its tenant lifts; the refusal names the first such rule, and otherwise that row is written and nothing else changes |
| SodVerdicts.MovingAKeyChangesNoVerdict | db/migrations/versions/6b26771e549d_separation_of_duties_waivers_per_tenant.py:193-203 | naming a permission set instead of a role with the same scopes changes no verdict and no waiver locked |
| SodVerdicts.LockedExactly | db/migrations/versions/f381f1694395_platform_sod_waiver_second_person_and_.py:75-84 | a write locks exactly the open, confirmed waivers of its tenant for waivable rules its keys carry both sides of, up to the first rule that forbids it |
| SodVerdicts.ProposedExactly | db/migrations/versions/f381f1694395_platform_sod_waiver_second_person_and_.py:103-117 | a waiver is taken if and only if its rule is there and waivable, nobody has confirmed it, its reason says something, its revocation is whole or absent, its id is new and no other open one of that tenant and rule exists |
| SodVerdicts.RevocationIsRefusedExactly | db/migrations/versions/6b26771e549d_separation_of_duties_waivers_per_tenant.py:318-333 | a well-formed revocation is refused if and only if some membership of the tenant carries both sides of the rule, and names how many do |
| SodVerdicts.OtherStatementsWriteTheirRow | db/migrations/versions/f381f1694395_platform_sod_waiver_second_person_and_.py:118-146 | a confirmation moves that row and nothing else, no other update is taken, and a deletion takes that membership alone |
| SodVerdicts.ScopeChangeIsRefusedExactly | db/migrations/versions/f381f1694395_platform_sod_waiver_second_person_and_.py:166-189 | new scopes are refused if and only if the stored array changes and some membership that names the key would be forbidden; the refusal names the least rule and counts those memberships |
| SodPlatform.Platform.WriteMembership | db/migrations/versions/6b26771e549d_separation_of_duties_waivers_per_tenant.py:100-118 | a membership insert or update of keys, with its trigger, does what the sequential machine says: accepted with the row written, or refused naming the rule, tables untouched |
| SodPlatform.Platform.ProposeWaiver | db/migrations/versions/f381f1694395_platform_sod_waiver_second_person_and_.py:103-117 | a waiver insert with guard, CHECKs and the unique open index does what the machine says |
| SodPlatform.Platform.UpdateWaiver | db/migrations/versions/6b26771e549d_separation_of_duties_waivers_per_tenant.py:308-346 | a waiver update with the guard before and the in-use count after does what the machine says; a refused revocation leaves the row as it was |
| SodPlatform.Platform.CountRelying | db/migrations/versions/6b26771e549d_separation_of_duties_waivers_per_tenant.py:322-325 | counts exactly the tenant's memberships that break the waiver's rule |
| SodPlatform.Platform.ChangeScopes | db/migrations/versions/f381f1694395_platform_sod_waiver_second_person_and_.py:150-242 | a change of the stored scopes is judged by the catalogue as it will be and undone if any holder would break a rule; an update that leaves them as they are is not judged |
| SodPlatform.JudgeHolder | db/migrations/versions/f381f1694395_platform_sod_waiver_second_person_and_.py:166-176 | reports the violation of exactly the memberships that name the role or set and would break a rule |
| SodDatabase.StepNeverEndangers | db/migrations/versions/f381f1694395_platform_sod_waiver_second_person_and_.py:95-192 | from any state, legacy unsafe memberships included, no statement turns a safe membership unsafe |
| SodDatabase.RunNeverEndangers | db/migrations/versions/f381f1694395_platform_sod_waiver_second_person_and_.py:95-192 | nor does any run of statements |
| SodDatabase.UpdatesAreConfirmationsOrRevocations | db/migrations/versions/f381f1694395_platform_sod_waiver_second_person_and_.py:118-146 | an update of a waiver is accepted if and only if it is a confirmation by another person moving nothing else, or a revocation moving nothing else that nobody relies on |
| SodDatabase.AtMostTwoUpdates | db/migrations/versions/f381f1694395_platform_sod_waiver_second_person_and_.py:118-146 | over any run a waiver sees at most two updates, is never removed, and what was decided when it was proposed never changes |
| SodDatabase.ConfirmedByASecondPerson | db/migrations/versions/f381f1694395_platform_sod_waiver_second_person_and_.py:220-227 | a waiver that becomes confirmed was confirmed by one statement in another name than the grantor's |
| SodDatabase.LiftingTakesTwoPeople | db/migrations/versions/f381f1694395_platform_sod_waiver_second_person_and_.py:220-227 | every waiver that lifts a rule after a run was proposed by one statement and confirmed by a later one, by two different people |
| SodDatabase.ScopeChangeKeepsSafe | db/migrations/versions/f381f1694395_platform_sod_waiver_second_person_and_.py:150-192 | an accepted scope change keeps every safe membership safe, those that do not name the key included |
| SodTransactions.Diamond | db/migrations/versions/6b26771e549d_separation_of_duties_waivers_per_tenant.py:239-249 | two statements under compatible locks may be run in either order with the same result, each still accepted |
| SodTransactions.WriterHoldsTheOpenWaiver | db/migrations/versions/6b26771e549d_separation_of_duties_waivers_per_tenant.py:239-249 | a membership write that breaks a rule holds the very waiver a revoke would have to lock |
| SodTransactions.StepKeepsInv | db/migrations/versions/6b26771e549d_separation_of_duties_waivers_per_tenant.py:308-346 | every step of the lock machine keeps the invariant that lets each open transaction commit |
| SodTransactions.InterleavingsAreSerial | db/migrations/versions/6b26771e549d_separation_of_duties_waivers_per_tenant.py:308-346 | whatever the interleaving, the committed tables are those of the committed statements run one by one in commit order, each accepted |
| SodTransactions.InterleavingsNeverEndanger | db/migrations/versions/6b26771e549d_separation_of_duties_waivers_per_tenant.py:308-346 | whatever the interleaving, no committed state has an unsafe membership the first did not have |
| SodTransactions.EveryAcceptedRunIsReachable | db/migrations/versions/f381f1694395_platform_sod_waiver_second_person_and_.py:68-90 | the lock machine refuses nothing it should accept: every accepted sequence of statements is committed by some interleaving |
| SodTransactions.WithoutTheLockBothPass | db/migrations/versions/f381f1694395_platform_sod_waiver_second_person_and_.py:75-83 | without the share lock a write and a revoke judged on the same tables both pass and leave a membership uncovered |
| SupportGrants.GrantTable.Execute | db/migrations/versions/af8ee878b4ab_platform_support_staff_and_support_.py:93-171 | an insert or update with guard, CHECKs, keys and column grants does what the machine says |
| SupportGrants.WhoMoves | db/migrations/versions/af8ee878b4ab_platform_support_staff_and_support_.py:358-380 | the provisioner's one move is to activate, touching only the assignment; every other move is the customer's and leaves the assignment alone |
| SupportGrants.EveryMoveIsOpen | db/migrations/versions/af8ee878b4ab_platform_support_staff_and_support_.py:137-144 | every transition the guard lists can in fact be made by one of the two roles, from every valid row |
| SupportGrants.EveryGrantLivesOneOfEleven | db/migrations/versions/af8ee878b4ab_platform_support_staff_and_support_.py:93-171 | over any run, a grant's accepted writes are one of eleven lives, at most three of them updates; it carries an activation exactly when it has been active |
| SupportGrants.ActiveWasGrantedFirst | db/migrations/versions/af8ee878b4ab_platform_support_staff_and_support_.py:279-306 | an active grant was granted by a customer-side write and then activated by a provisioner's, its last two |
| SupportGrants.RevokedKeepsItsActivation | db/migrations/versions/af8ee878b4ab_platform_support_staff_and_support_.py:295-310 | a revoked grant carries an activation exactly when it was active just before |
| SupportGrants.DecidedStaysDecided | db/migrations/versions/af8ee878b4ab_platform_support_staff_and_support_.py:123-162 | over any run what was asked never changes, nor holder and expiry once set |
| SupportTerms.ActivationRunsTheHoursAskedFor | db/migrations/versions/af8ee878b4ab_platform_support_staff_and_support_.py:295-306 | over any run from the empty table, a grant that carries an activation expires exactly the hours asked for after it, between 1 and 336, and keeps that end through every later statement, revocation included |
| SupportTerms.ChecksMeanWhole | db/migrations/versions/af8ee878b4ab_platform_support_staff_and_support_.py:261-310 | the CHECK constraints hold of exactly the rows that are whole for their stage, each listed by what it carries and what it does not |
| SupportTerms.StoredGrantsAreWhole | db/migrations/versions/af8ee878b4ab_platform_support_staff_and_support_.py:261-310 | over any run every stored row is one of those |
| SupportTerms.InsertedExactly | db/migrations/versions/af8ee878b4ab_platform_support_staff_and_support_.py:102-121 | after any run, a grant is taken if and only if the customer side asks, it starts as a request or granted, is whole and new, and numbers last; it is stored as asked with the next code |
| SupportTerms.MovedExactly | db/migrations/versions/af8ee878b4ab_platform_support_staff_and_support_.py:123-169 | after any run, an update is taken if and only if the role may write its columns, the row with those columns set is one permitted move adding only its own columns, and it is whole |
| SupportGrants.GuardAndChecksAreNotEnough | db/migrations/versions/af8ee878b4ab_platform_support_staff_and_support_.py:66-76 | guard and CHECKs alone would let a never-active grant be revoked with an activation on it; only the column grants forbid it |
| SupportGrants.NumberInCode | db/migrations/versions/af8ee878b4ab_platform_support_staff_and_support_.py:114-119 | reading a code back gives its number, padded or not, for every number |
| SupportTerms.CodeReads | db/migrations/versions/af8ee878b4ab_platform_support_staff_and_support_.py:118-119 | a code is `SG-` and the number, in four digits below ten thousand and without a leading zero above |
| SupportGrants.CodesAreOneToN | db/migrations/versions/af8ee878b4ab_platform_support_staff_and_support_.py:109-120 | after any run a tenant with n grants has exactly the codes of 1 to n |
| SupportGrants.NoInsertMeetsItsCode | db/migrations/versions/af8ee878b4ab_platform_support_staff_and_support_.py:244-244 | no insert is refused over its code while the numbers last |
| SupportCodes.CommitIsAnInsert | db/migrations/versions/af8ee878b4ab_platform_support_staff_and_support_.py:109-113 | a code computed under the advisory lock is still the one the guard would give when its transaction commits |
| SupportCodes.ConcurrentCodesAreOneToN | db/migrations/versions/af8ee878b4ab_platform_support_staff_and_support_.py:109-120 | whatever the interleaving of inserts, rollbacks included, the result is serial and each tenant's codes are those of 1 to n |
| MarkdownLines.BlankIsNoDelimiter | apps/web/components/markdown-answer.tsx:82-87 | a blank or missing line is never a table's delimiter row |
| MarkdownBlocks.Collect | apps/web/components/markdown-answer.tsx:114-120 | an inner loop takes exactly the run of lines that continue its block, and what each contributes |
| MarkdownBlocks.ParseOne | apps/web/components/markdown-answer.tsx:100-226 | one turn of the outer loop renders the block that starts here and moves past exactly its lines, at least one, on every shape of line |
| MarkdownBlocks.ParseBlocks | apps/web/components/markdown-answer.tsx:95-229 | the loop ends on every text and gives the blocks of its chunks |
| MarkdownBlocks.OneBlock | apps/web/components/markdown-answer.tsx:100-228 | nothing past its own lines bears on what a block says |
| MarkdownRoundTrip.WrittenIsReadBack | apps/web/components/markdown-answer.tsx:95-229 | the round trip: every sequence of blocks printed by an independent writer (headings, paragraphs of several lines, quotes, both kinds of list, rules, closed and open code, tables with every alignment), with any markers and padding, blank lines or none between them and any line ending, is read back as those blocks, in order, with their text, level, cells and alignments |
| MarkdownReading.HeadingMeans | apps/web/components/markdown-answer.tsx:135-142 | a heading is exactly one to four `#`, whitespace and its text |
| MarkdownReading.BulletMeans | apps/web/components/markdown-answer.tsx:164-164 | a bulleted item is exactly `-`, `*` or `+`, whitespace and its text |
| MarkdownReading.NumberedMeans | apps/web/components/markdown-answer.tsx:165-165 | a numbered item is exactly digits, a dot or parenthesis, whitespace and its text |
| MarkdownReading.RuleMeans | apps/web/components/markdown-answer.tsx:126-130 | a rule is exactly three or more dashes, or stars |
| MarkdownReading.ParagraphStops | apps/web/components/markdown-answer.tsx:210-222 | a paragraph stops exactly at a blank line, a pipe, a quote, a fence or a marker followed by whitespace |
| MarkdownReading.DelimiterMeans | apps/web/components/markdown-answer.tsx:74-87 | a delimiter cell is exactly dashes with a colon on neither, either or both sides, and aligns as they say |
| MarkdownRoundTrip.RowSplits | apps/web/components/markdown-answer.tsx:63-72 | a row gives back its cells with or without either outer pipe and whatever whitespace is around |
| MarkdownStreaming.EveryLineAccountedFor | apps/web/components/markdown-answer.tsx:100-228 | the blocks' spans are in order and disjoint, and a line is outside all of them exactly when it is blank and not inside a code block |
| MarkdownStreaming.StableByLines | apps/web/components/markdown-answer.tsx:95-229 | the blocks of a prefix of the lines, all but the last, begin the blocks of the whole |
| MarkdownStreaming.StableByCharacters | apps/web/components/markdown-answer.tsx:95-229 | the blocks of a prefix of the characters, all but the last two, begin the blocks of the whole, carriage returns included |
| MarkdownStreaming.TheLastButOneMayChange | apps/web/components/markdown-answer.tsx:164-180 | a half-written line can still change the last block but one, so two is the least |
| MarkdownStreaming.BlankLineSeparates | apps/web/components/markdown-answer.tsx:104-107 | two texts with a blank line between parse as each alone, if the first does not end inside a fence |
| MarkdownStreaming.OpenFenceSwallows | apps/web/components/markdown-answer.tsx:111-124 | and if it ends inside a fence that already holds a line, they never do |
| MarkdownInline.RenderInline | apps/web/components/markdown-answer.tsx:232-291 | the loop ends on every text and shows exactly its tokens, in order |
| MarkdownInline.TheOnlyReading | apps/web/components/markdown-answer.tsx:237-288 | the tokens are the one way to cut a text into leftmost matches, first alternative first, and plain text in which nothing matches |
| MarkdownInline.SourcesAreTheText | apps/web/components/markdown-answer.tsx:237-288 | the tokens' sources, joined, are the text |
| MarkdownInline.EverythingShownWasWritten | apps/web/components/markdown-answer.tsx:247-286 | every piece shown is its source with the markers taken off, and a live link has a safe target |
| MarkdownSpans.PatternMeans | apps/web/components/markdown-answer.tsx:60-61 | each alternative of the pattern matches at the front of a text exactly a span written in its syntax, so backtracking finds nothing else |
| MarkdownSpans.SafeLinkMeans | apps/web/components/markdown-answer.tsx:40-40 | a target is safe exactly when it starts with a slash or with `http://` or `https://` in either case |
| MarkdownSpans.ShownByKind | apps/web/components/markdown-answer.tsx:247-286 | every stretch shows its text in its own kind, and only plain text and links without a safe target are shown as the characters they are |
| MoneyText.GroupedMeansUniform | apps/web/lib/money.ts:59-60 | the grouped patterns accept exactly the groupings of more than three digits |
| MoneyText.ParsedMeansWritten | apps/web/lib/money.ts:55-69 | a text reads as an amount if and only if it is, bare of spaces and currency, an optional minus and those digits plain or uniformly grouped, and the amount is safe |
| MoneyText.RefusedMeansUnwritten | apps/web/lib/money.ts:55-69 | blank, past the limit and not whole are reported exactly where the text is blank, written but unsafe, and not written as an amount |
| MoneyText.ParseFormatted | apps/web/lib/money.ts:14-28 | parsing a formatted amount returns it for every safe integer, with the currency and without, and reports the limit for every other integer whose digits are printed in full, as JavaScript does below ten to the twenty-first |
| MoneyText.MoneyShows | apps/web/lib/money.ts:12-28 | an amount is shown as its sign, its digits with a dot as every fourth character from the right and no other, a no-break space and `đ` |
| MoneyText.ExponentIsNotWhole | apps/web/lib/money.ts:56-63 | past that the digits are printed with an exponent, and any text with an `e` in it is reported as not whole |
| MoneyText.FieldIsStable | apps/web/lib/money.ts:72-84 | formatting a field twice is formatting it once, and never changes what it reads as |
| MoneyWords.ReadTriple | apps/web/lib/money.ts:101-120 | speaks the words of a group of three digits |
| MoneyWords.ReadUnderBillion | apps/web/lib/money.ts:123-133 | speaks the words of a number below a billion, skipping empty groups |
| MoneyWords.ReadNumber | apps/web/lib/money.ts:137-143 | speaks the words of any positive number |
| MoneyWords.NumberHeard | apps/web/lib/money.ts:100-143 | a left-to-right listener that scales groups by thousand and million and everything so far by a billion hears exactly the number spoken |
| MoneyGrammar.TheOnlyWording | apps/web/lib/money.ts:101-143 | rules on the words alone (`linh` exactly between hundreds and a figure in the units, `mốt` and `lăm` exactly after the tens that call for them, every part after the first opening with its hundreds) leave one wording: the reading of a positive number is the only sequence of words that keeps them and is heard as it |
| MoneyGrammar.ReadingKeepsTheRules | apps/web/lib/money.ts:101-143 | and every reading keeps them |
| MoneyWords.MoneyInWords | apps/web/lib/money.ts:150-157 | refuses exactly the unsafe amounts, and what it writes for any other reads back as that amount |
| MoneyWords.WordingIsReadBack | apps/web/lib/money.ts:150-157 | the text of every integer, zero and negatives included, reads back as it |
| MoneyGrammar.WordingIsTheWords | apps/web/lib/money.ts:150-157 | what is written is those words with the sign before and the currency after, single spaces between and a capital to open |
| MoneyGrammar.FiguresAreNamed | apps/web/lib/money.ts:86-98 | each word is spelled as listed |
| MoneyWords.WordingIsInjective | apps/web/lib/money.ts:150-157 | no two amounts share a wording |
| RateLimit.RateLimiter.Dispatch | apps/api/src/dw_api/middleware/rate_limit.py:43-71 | one request: the verdict and the whole new table, pruned when it is too large |
| RateLimit.PruningIsInvisible | apps/api/src/dw_api/middleware/rate_limit.py:55-57 | on a clock that never goes back, every verdict is that of a limiter that never prunes |
| RateLimit.VerdictsAreOwn | apps/api/src/dw_api/middleware/rate_limit.py:47-59 | one caller's verdicts are a function of that caller's own request times |
| RateVerdicts.EveryVerdict | apps/api/src/dw_api/middleware/rate_limit.py:43-71 | from the requests alone: an exempt path is admitted and never counted, and any other request is refused if and only if its caller has made the limit since the one that opened the minute it falls in, with the whole seconds left of that minute, one at least |
| RateVerdicts.RememberedExactly | apps/api/src/dw_api/middleware/rate_limit.py:55-57 | the table keeps every caller up to ten thousand, and past that those whose minute opened in the last sixty seconds |
| RateLimit.WindowBound | apps/api/src/dw_api/middleware/rate_limit.py:49-59 | one window admits one caller at most the limit |
| RateLimit.SlidingBound | apps/api/src/dw_api/middleware/rate_limit.py:49-59 | any half-open sixty seconds admit one caller at most twice the limit less one |
| RateLimit.BoundIsMet | apps/api/src/dw_api/middleware/rate_limit.py:49-59 | for every limit and caller some requests to the pruned table are admitted exactly that often within sixty seconds |
| RateLimit.RetryAfterWithinAMinute | apps/api/src/dw_api/middleware/rate_limit.py:60-60 | every refusal asks for one to sixty seconds |
| Idempotency.KeyMeansWhole | apps/api/src/dw_api/dependencies/idempotency.py:179-188 | a header means a key exactly when it is that key, of at most 255 characters, between whitespace; none is ever cut |
| IdempotentAnswers.HeaderDecides | apps/api/src/dw_api/dependencies/idempotency.py:179-188 | no header and a blank one are no key, and a header is refused exactly when what it holds is longer than 255 characters |
| Idempotency.KeyTable.Insert | packages/python/dw_platform/src/dw_platform/adapters/persistence/idempotency_store.py:36-70 | of the requests inserting a key one wins, and a taken key is left alone |
| Idempotency.KeyTable.TakeOver | packages/python/dw_platform/src/dw_platform/adapters/persistence/idempotency_store.py:103-128 | re-stamps a reservation that is open and old enough, and nothing else |
| Idempotency.IdempotentOperation.Claim | apps/api/src/dw_api/dependencies/idempotency.py:117-126 | claiming undisturbed is the machine's insert, look, clock reading and takeover, each at its own moment; the request holds the key exactly when none of them ended it |
| IdempotentAnswers.ClaimDecides | packages/python/dw_platform/src/dw_platform/application/idempotency.py:134-170 | what a claim comes to by the row under the key: none, another request, an answer, or a reservation of at least, or less than, five minutes |
| Idempotency.IdempotentOperation.Store | apps/api/src/dw_api/dependencies/idempotency.py:161-168 | a claimed key whose row is open holds the response given, status and body, and its request, afterwards; no other row changes, and without a claim or an open row none does |
| Idempotency.IdempotentOperation.AbandonUnlessRecorded | apps/api/src/dw_api/dependencies/idempotency.py:170-176 | a key claimed and not recorded is free afterwards if its row was open, and no other row is touched |
| Idempotency.AnswersAreForGood | packages/python/dw_platform/src/dw_platform/adapters/persistence/idempotency_store.py:130-151 | a stored response, and what it answers, never changes, whatever any number of requests do |
| Idempotency.EveryReplayIsTheStoredResponse | packages/python/dw_platform/src/dw_platform/application/idempotency.py:134-156 | in every run whoever is replayed gets the one response stored for that key, spent on that very request |
| IdempotentAnswers.EveryReplayWasRecorded | README.md:143-148 | in every run from an empty table whoever is replayed gets the response, status and body, that an earlier step of the run recorded for that tenant and key, and the key was reserved for that very request |
| IdempotentAnswers.EveryAnswerWasRecorded | packages/python/dw_platform/src/dw_platform/adapters/persistence/idempotency_store.py:130-151 | the answer a row comes to hold is what one of the run recorded while the row was open |
| IdempotentAnswers.EveryRowWasReserved | packages/python/dw_platform/src/dw_platform/adapters/persistence/idempotency_store.py:36-70 | a row was made by an insert of a request at that key, for what that request asks |
| IdempotentAnswers.RecordedIsReplayed | README.md:143-148 | and what is recorded in an open reservation is, after any run, replayed to every later comer who asks the same, and a conflict to any other |
| Idempotency.NoHandlerStartsOnceAnswered | README.md:143-145 | once a key has its answer, no handler starts on it again, and no form's gets past claiming it |
| Idempotency.OtherKeysAreLeftAlone | README.md:156-158 | no run of other tenants' or other keys' requests touches a key's row |
| Idempotency.NothingIsLeftReserved | apps/api/src/dw_api/dependencies/idempotency.py:231-269 | once every request has ended, those whose handler runs before it claims included, no key is left reserved |
| Idempotency.OwnedUnlessTakenFromTheLiving | packages/python/dw_platform/src/dw_platform/application/idempotency.py:158-170 | the step behind the three rows below: holders keep their own reservations if and only if the step does not take one over from a request still at work |
| Idempotency.HarmlessExactlyWhenNoneIsTakenFromTheLiving | apps/api/src/dw_api/dependencies/idempotency.py:161-176 | in every state of a run, whatever any request could record or end with completes or releases only a reservation it made, if and only if no takeover in the run takes from a request still at work |
| Idempotency.OneHolderExactlyWhenNoneIsTakenFromTheLiving | README.md:149-151 | no two requests are ever at work on one key in a run, if and only if the same |
| Idempotency.OwnedExactlyWhenNoneIsTakenFromTheLiving | packages/python/dw_platform/src/dw_platform/application/idempotency.py:158-170 | every holder keeps the reservation it made throughout a run, if and only if the same |
| Idempotency.PromptHandlersKeepTheirKeys | packages/python/dw_platform/src/dw_platform/application/idempotency.py:36-44 | if every handler that claims its key records, ends or dies within five minutes of its reservation's stamp, no takeover takes from a request at work |
| Idempotency.OnlyItsOwn | apps/api/src/dw_api/dependencies/idempotency.py:161-176 | the act behind the first of these: where holders own, recording or ending touches only the row this request reserved |
| Idempotency.FitsUnlessMixed | packages/python/dw_platform/src/dw_platform/application/idempotency.py:134-170 | a step keeps every claimed request's open reservation one for what it asks, if and only if it neither wins a free key under a claimed request that asked for something else nor takes over a reservation spent on something else |
| Idempotency.FitsMeansRecordsFit | apps/api/src/dw_api/dependencies/idempotency.py:161-168 | that state is the one in which whatever any request could record now answers the request the key was spent on |
| Idempotency.AnswersFitExactlyWhenNothingIsMixed | README.md:143-148 | it holds throughout a run if and only if no step of the run mixes two requests so |
| Idempotency.EveryReplayAnswersTheSameRequest | README.md:143-148 | in a run that mixes nothing every replay was recorded by a request with the same tenant, key and fingerprint |
| Idempotency.QuickReadersMixNothing | packages/python/dw_platform/src/dw_platform/application/idempotency.py:158-170 | nothing is mixed where nobody at work loses its key and every takeover's clock is read less than five minutes, less the stamps' lag, after its look |
| Idempotency.TimelyRunsReplayRightly | packages/python/dw_platform/src/dw_platform/application/idempotency.py:36-44 | so where handlers are prompt and readers quick every replay is the answer to the same request |
| Idempotency.AReusedKeyAnswersTheWrongRequest | packages/python/dw_platform/src/dw_platform/adapters/persistence/idempotency_store.py:130-164 | without prompt handlers it need not be: a run, its readers quick, in which a request is replayed another's answer |
| Idempotency.ADawdlingReaderAnswersTheWrongRequest | packages/python/dw_platform/src/dw_platform/application/idempotency.py:158-170 | nor without quick readers: a run, its handlers prompt and nobody's key taken at work, in which a request is replayed another's answer |
| Idempotency.StaleKeysRecover | packages/python/dw_platform/src/dw_platform/application/idempotency.py:36-44 | a fresh request for the same thing gets an open key exactly when the reservation is at least five minutes old |
| EnvMerge.ParseEnv | scripts/merge_server_env.py:107-120 | the parsing loop gives the specified map |
| EnvMerge.LastWins | scripts/merge_server_env.py:108-112 | every key has the value of the last line that assigns it, and no other key is there |
| EnvLines.AssignedMeansAssigns | scripts/merge_server_env.py:114-119 | a line assigns a value to a key if and only if it is the key, an equals sign and the value with whitespace around and no `#` in front |
| PyText.LineThenRest | scripts/merge_server_env.py:114-114 | `splitlines` ends a line at its first break, whichever it is, a carriage return and its line feed being one |
| EnvMerge.Merge | scripts/merge_server_env.py:123-148 | the merge loops give the specified text, kept keys and orphans |
| EnvLines.TemplateLinesStay | scripts/merge_server_env.py:132-141 | every template line is where it was, as it was unless it assigns a preserved key of the local file, and then with the local value: comments and order stay |
| EnvLines.OrphansFollow | scripts/merge_server_env.py:143-148 | after them come a blank line, the heading and the preserved keys the template lacks with their local values, if there are any, and nothing else |
| EnvLines.OrphansInOrder | scripts/merge_server_env.py:144-147 | in the order of the preserved keys |
| EnvMerge.MergedParses | scripts/merge_server_env.py:123-148 | the merged text parses to the local value of every preserved key the local file has, the template's last value of everything else, and no other key |
| EnvMerge.ReportPartitions | scripts/merge_server_env.py:130-148 | kept and orphans partition the preserved local keys, kept being those the template assigns |
| EnvLines.KeptInOrder | scripts/merge_server_env.py:136-139 | what was kept is reported once each, in the order in which the template first assigns it |
| EnvMerge.SecondMergeParsesTheSame | scripts/merge_server_env.py:22-23 | merging again changes no value |
| EnvMerge.ThirdMergeIsTheSecond | scripts/merge_server_env.py:22-23 | from the second merge on the text no longer changes |
| EnvMerge.SecondMergeIsTheFirst | scripts/merge_server_env.py:132-141 | the second merge writes the first one's text if and only if every template line for a preserved key the local file lacks already reads as a merge would write its last value |
| EnvMerge.SecondMergeMayRewrite | scripts/merge_server_env.py:132-141 | a template for which the second merge writes another text |
| SqlSplitters.BaselineStatements | db/migrations/versions/0001_platform_baseline.py:62-85 | the toggling loop gives the specified statements |
| SqlSplitters.TaggedStatements | db/migrations/versions/0012_partition_maintenance.py:36-59 | the tagged loop gives the specified statements, or the error with the first 120 characters left over |
| SqlSplitters.PlainStatements | db/migrations/versions/0002_http_idempotency.py:39-61 | the plain loop and its filter give the specified statements |
| SqlStatements.EndsStatementMeans | db/migrations/versions/0001_platform_baseline.py:77-77 | a line ends a statement exactly when a semicolon is the last thing on it but for whitespace |
| SqlStatements.IsCommandMeans | db/migrations/versions/0002_http_idempotency.py:32-36 | a line is a command exactly when something other than two dashes starts it |
| SqlStatements.FirstTagMeans | db/migrations/versions/0012_partition_maintenance.py:33-46 | the tag found on a line is the one that stands first |
| SqlStatements.NotBlankInOrder | db/migrations/versions/0001_platform_baseline.py:78-84 | each chunk is handed on by itself, in order, unless it is blank |
| SqlStatements.CommandsInOrder | db/migrations/versions/0002_http_idempotency.py:60-61 | or, in the third, unless no line of it is a command |
| SqlStatements.StatementsAreWhole | db/migrations/versions/0002_http_idempotency.py:57-61 | no statement is blank or has whitespace at its ends, and every one of the third holds a command |
| SqlStatements.RefusedOverItsEnd | db/migrations/versions/0012_partition_maintenance.py:56-58 | a text is refused exactly when something other than whitespace follows the last cut, quoting its first 120 characters |
| SqlSplitters.NothingIsLost | db/migrations/versions/0012_partition_maintenance.py:43-55 | the chunks a splitter cuts and what it has left are the text, line for line |
| SqlSplitters.StatementsAreTheText | db/migrations/versions/0001_platform_baseline.py:70-85 | the statements hold, in order, every character of the text that is not whitespace |
| SqlSplitters.TaggedCutsOutside | db/migrations/versions/0012_partition_maintenance.py:44-55 | a statement ends the first time its own lines leave no tag open and end in a semicolon: no cut falls inside an open tag and none is missed |
| SqlSplitters.BaselineCutsOutside | db/migrations/versions/0001_platform_baseline.py:73-81 | the same by counting: every statement holds an even number of double dollars and no shorter run of its lines is one |
| SqlSplitters.AgreeOnLine | db/migrations/versions/0012_partition_maintenance.py:44-50 | on a line with no named tag before others, the two splitters agree on what is open if and only if the line's double dollars fit: one or an even number outside, none or an odd number inside |
| SqlSplitters.TaggedIsBaseline | db/migrations/versions/0012_partition_maintenance.py:36-59 | where every line fits the two give the same statements, and an unterminated end is an error in one and a statement in the other |
| SqlSplitters.PlainOnTextWithoutBodies | db/migrations/versions/0002_http_idempotency.py:32-61 | without double dollars the comment-dropping splitter is the baseline with commandless statements left out |
| SqlQuotes.TaggedReadsTameLines | db/migrations/versions/0012_partition_maintenance.py:44-50 | what the tagged splitter holds open after a line is what reading it character by character leaves open, if and only if nothing after the first close leaves a quote open |
| SqlQuotes.BaselineReadsUnnamedLines | db/migrations/versions/0001_platform_baseline.py:74-75 | flipping on an odd count is exactly reading the quotes of a line without named tags |
| SqlQuotes.TaggedReadsTameTexts | db/migrations/versions/0012_partition_maintenance.py:43-50 | after every line of a text the tag held is the quote left open, if and only if every line is tame |
| SqlQuotes.TaggedNeverCutsAQuote | db/migrations/versions/0012_partition_maintenance.py:36-59 | on tame lines no statement ends inside a dollar quote, statements read as whole texts |
| SqlQuotes.FirstWildLineIsCutInside | db/migrations/versions/0012_partition_maintenance.py:36-59 | where the first line that is not tame, if any, ends in a semicolon, no statement ends inside a quote if and only if every line is tame |
| SqlQuotes.TaggedMayCutAQuote | db/migrations/versions/0012_partition_maintenance.py:46-50 | one line that the splitter cuts inside a quote: it opens, closes and reopens the same tag |
| SqlQuotes.BaselineNeverCutsAQuote | db/migrations/versions/0001_platform_baseline.py:62-85 | nor does any of the baseline's where no tag is named |
| ChannelDeliveries.ChannelStore.DeliverNotification | db/migrations/versions/5a25154e0296_platform_channel_deliveries.py:76-142 | the two set-level inserts, the refusal outside the bound tenant, and the count of those told |
| ChannelDeliveries.ChannelStore.ExpirePendingChannelDeliveries | db/migrations/versions/983b509c3f0f_platform_channel_deliveries_pending_.py:52-78 | fails the stale pending rows and audits each in one statement, and counts them |
| ChannelDeliveries.ChannelStore.PruneChannelDeliveries | db/migrations/versions/5a25154e0296_platform_channel_deliveries.py:295-313 | removes exactly the finished rows past ninety days and counts them |
| ChannelDeliveries.ChannelStore.PruneNotificationsPast | db/migrations/versions/855ae928c3fa_platform_in_app_notifications.py:166-183 | removes exactly the notifications past ninety days and counts them |
| ChannelDeliveries.QueuedForTheNewlyToldWhoLinked | db/migrations/versions/5a25154e0296_platform_channel_deliveries.py:107-136 | the single call behind `NobodyIsToldTwice`: who gets a delivery, stamped with which notification |
| ChannelOutcomes.DeliveredExactly | db/migrations/versions/5a25154e0296_platform_channel_deliveries.py:76-99 | a delivery is taken exactly when the session is bound to the workspace's tenant and the message could be stored or no member is addressed |
| ChannelOutcomes.ToldExactly | db/migrations/versions/5a25154e0296_platform_channel_deliveries.py:103-121 | exactly the members addressed who have no notification from this source get one, with what is said, and are counted; a notification that is there stays |
| ChannelDeliveries.DeliveringTwice | db/migrations/versions/855ae928c3fa_platform_in_app_notifications.py:71-72 | delivering twice adds nothing to delivering once |
| ChannelDeliveries.NobodyIsToldTwice | db/migrations/versions/855ae928c3fa_platform_in_app_notifications.py:166-183 | for ninety days, through any run, repeating a source adds no row in either table for a person already told, in any tenant |
| ChannelDeliveries.OnlyOldFinishedRowsLeave | db/migrations/versions/5a25154e0296_platform_channel_deliveries.py:305-308 | the single step behind `NoDeliveryIsLost`: a row leaves only by a pruning that finds it finished and past ninety days |
| ChannelDeliveries.ExpireThenPrune | db/migrations/versions/983b509c3f0f_platform_channel_deliveries_pending_.py:54-57 | expiring and pruning at one instant leaves nothing past ninety days if and only if no pending row is both past ninety days and inside the term |
| ChannelDeliveries.TermOfNinetyDaysLeavesNothing | db/migrations/versions/983b509c3f0f_platform_channel_deliveries_pending_.py:54-57 | its case for terms of at most ninety days, where nothing is left |
| ChannelOutcomes.PruningForgets | db/migrations/versions/855ae928c3fa_platform_in_app_notifications.py:166-183 | a pruning of the inbox removes exactly what is older than ninety days, and neither pruning touches the other table or the audit rows |
| ChannelDeliveries.EveryOutcomeIsAuditedOnce | db/migrations/versions/983b509c3f0f_platform_channel_deliveries_pending_.py:60-76 | in every run a pending delivery has no audit row and a finished one exactly one, in its own tenant, that says how it ended, why or under which id, and after how many attempts; none is audited twice, pruned or not |
| ChannelDeliveries.ExpiryOfOne | db/migrations/versions/983b509c3f0f_platform_channel_deliveries_pending_.py:52-78 | the single row behind `EveryOutcomeIsAuditedOnce`: what an expiry does to it and to its audit |
| ChannelOutcomes.SettledExactly | packages/python/dw_platform/src/dw_platform/adapters/persistence/channel_deliveries.py:107-147 | what each outcome writes in its row and its audit, that a retry is only rescheduled, and that no other delivery changes |
| ChannelOutcomes.AttemptsAreTries | packages/python/dw_platform/src/dw_platform/adapters/persistence/channel_deliveries.py:107-147 | through any run a delivery counts the attempts made on it: neither calling it off nor its expiry is one |
| ChannelDeliveries.NoDeliveryIsLost | db/migrations/versions/5a25154e0296_platform_channel_deliveries.py:297-311 | through any run a delivery either still waits in the table or has its one audit row in its own tenant: none is pruned unsent and unsaid |
| ChannelDeliveries.AuditsAreForever | db/migrations/versions/983b509c3f0f_platform_channel_deliveries_pending_.py:60-76 | an audit row, once written, stays as it is |

## Left out

- Separation of duties: inserting or editing rules, clearing `waivable`, a new role or set whose key memberships already name, moving a membership to another tenant. No trigger guards them; the rule catalogue is fixed but for scopes.
- SodTransactions.InterleavingsNeverEndanger: scope changes are not interleaved with other statements, because migrations make them and run alone; the sequential results cover them.
- SodTransactions.InterleavingsAreSerial: assumes READ COMMITTED with row and unique-index locks held to the end of the transaction; the database's own lock manager, deadlock detection and timeouts are not part of this model.
- SodPlatform.Platform.ChangeScopes: scopes are sets, and whether their stored order or repetition changed, which also fires the trigger, is a parameter; the list of at most twenty membership ids in the error detail is not modelled, only that there is an offender and which rule is least.
- Support grants: the migrator as a writer, deletion by cascade, `ON DELETE SET NULL` rewrites, support staff rows and the trigger that keeps staff out of tenants.
- Row-level security, foreign keys, index and partition DDL, twin-migration checks: database internals or small finite facts.
- MarkdownRoundTrip.WrittenIsReadBack: a paragraph that opens with a pipe is written on that line alone, a marker is followed by some text, and no printed text holds a character that ends a line; texts that no writer of blocks would produce are covered by the laws on lines and on spans.
- MarkdownBlocks.ParseBlocks: the inline rendering of a block's text is `MarkdownInline`; the React elements and their classes are left out.
- MoneyText.ParseFormatted: amounts are integers whose digits JavaScript prints in full, so below ten to the twenty-first; the exponent form past that is not printed by the model, only read (`ExponentIsNotWhole`). `Math.trunc` on fractions and the sign of a negative zero are not modelled; `formatMoneyShort` is left out because it rounds on purpose.
- MoneyText.FieldIsStable: a number handed to the field is its decimal text; the exponent form JavaScript prints past 1e21 is not modelled.
- MoneyWords.MoneyInWords: capitalising is defined on the letters a reading can open with, not on all of Unicode.
- RateLimit.RateLimiter.Dispatch: the caller's key is a parameter; hashing the token or taking the client's address is left out, and so is the rest of the response.
- Idempotency.NothingIsLeftReserved: a form route claims its key at most once, as the code's do; claiming twice in one request is not modelled.
- Idempotency.KeyMeansWhole: the bytes of the header before they are decoded are not modelled.
- Idempotency.EveryReplayAnswersTheSameRequest: the table's clock and the application's are one clock, though a stamp may be older than the write it comes with; the fingerprint is a value, and hashing the body is left out.
- EnvMerge.Merge: the set of preserved names is a parameter, given in sorted order with every name written as it is read (`AreNames`); the list itself, the files, backups and printing are left out.
- SqlQuotes.TaggedNeverCutsAQuote: single-quoted strings and comments are not read, as no splitter reads them.
- ChannelDeliveries.EveryOutcomeIsAuditedOnce: a row is settled as the sending lane does it, claimed while pending and with its audit row in the same transaction (packages/python/dw_platform/src/dw_platform/adapters/persistence/channel_deliveries.py:107-177); the hash of the chat in a sent row's audit is left out, and other column updates the application role is granted, cascades and workspace purges are not modelled.
- ChannelDeliveries.ChannelStore.DeliverNotification: a row's random id is the number of the call that made it; reading an inbox, marking it read and `channel_delivery_scopes_due` are left out.
- The packages not named above, pages, navigation, authentication, document generation, object storage, settings and the checkers under `scripts/`: plumbing around this logic or driven by libraries.
