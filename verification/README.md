# Engagement platform: verified model

The platform turns events into money, experience, ranks and rewards. A Rust engine decides, a Go
control plane stores, and a TypeScript client sends. This project models the parts of it that carry
hard invariants and proves what they keep:

- the **formula language**: lexer, budgeted recursive-descent parser and evaluator, against spellings
  and a grammar said without them, and a printer that the parser undoes (`FormulaLexer`, `FormulaSpelling`,
  `FormulaParser`, `FormulaGrammar`, `FormulaBudget`, `FormulaEval`, `FormulaPrinter`, `FormulaRoundTrip`);
- the **event path**: client queue, lossy network, event gateway and concurrent event processors
  (`EventClient`, `EventGateway`, `IngestionRun`, `CommandKeys`, `EventProcessing`);
- the **money**: the engine's ledger kernel with reversals, the control plane's per-command check and
  cached wallets, and how the two relate (`Ledger`, `LedgerRun`, `WalletStore`, `WalletAgreement`,
  `GoRefinesRust`), and experience through an account merge (`TrackMerge`);
- **levels and ranks** (`Progression`, `Ranking`);
- **state driven by events**: calendar windows, streaks, challenges, rule throttling, the projection of
  commands and the lookup of paths (`TimeWindows`, `WindowKeys`, `Streak`, `Challenge`, `Rules`, `Projection`, `Paths`);
- the **random generator** of the simulator (`SplitMix`).

Code that changes fields or loops over a local is a class or a method here, proved against a
specification function; the theorems are about those functions. Runs are sequences of steps or of
inputs of any length.

## What the code does not do as its comments say

Each claim is false of the code; the members named give the exact condition and an input.

- Reversals: the comment at `platform/crates/economy/src/lib.rs:212-213` says a reversal can never go
  negative. Undoing an earn that was since spent does. An unreversed entry can be reversed exactly when the
  reference of its reversal is unrecorded and the balance without it is allowed (`LedgerRun.ReversalAccepted`);
  each cause alone refuses one (`LedgerRun.ReversalRefused`, `LedgerRun.ReferenceTakenFirst`).
- Replay rejection covers entries recorded before the batch, not repeats inside it
  (`LedgerRun.ReplayAcrossBatchesOnly`, `LedgerRun.ReplayInsideBatch`).
- An event whose own id is held by a row of another identity is reported as a duplicate although nothing
  stands for it; that is the only such case (`EventGateway.IngestCorrect`, `EventGateway.TakenIdUnanswered`).
- "Ties share rank" (`platform/services/control-plane/internal/player/player.go:160-162`): the SQL rank is the
  shared rank only for the least user id among ties (`Ranking.SqlRankIsSharedRank`, `Ranking.TiedRowsDiffer`).
- The SQL rank ignores a board's direction and tie-breaker: `Ranking.SqlRankOffBy` says for every board how far it
  is from the position, and when it is none. `Ranking.SqlRankMirrorsLowest` says that a lowest-first board gets it
  right only in the middle; `Ranking.LowestBoardReversed` and `Ranking.TieBreakersIgnored` show rows numbered
  backwards for their direction and for their tie-breaker.
- An experience board with no track is said to mean the default track
  (`platform/crates/core-engine/src/process.rs:425-426`); it shows the track awarded last
  (`Projection.BoardScoreIs`, `Projection.TracklessBoardFollowsAnyTrack`, `Projection.SideTrackTakesBoard`).
- Challenge rewards with a target of one are paid once ever, although each window completes
  (`Challenge.PaidExactly`, `Challenge.TargetOnePaysOnce`).
- A challenge's `repeatability` (`platform/crates/common/src/config.rs:140-141`) is never read by the engine: the
  window alone decides, so a challenge set to repeat once pays once for every window that reached its target
  (`Challenge.RepeatsEachWindow`). Likewise a rule's `frequency_window` (`platform/crates/common/src/config.rs:32-35`):
  caps are per UTC day whatever the window (`Rules.FiresExactly`, `Rules.CapRestartsEachDay`).
- Streaks over weeks, months and years never break, and streaks over hours count the hours of one date
  (`Streak.LongWindowsNeverBreak`, `Streak.HourStreakIsWithinTheDay`); `Streak.StreakIsRunExactly` says when a
  streak is the run of adjacent windows, `Streak.MissedWindowCounts` and `Streak.MidnightBreaks` when not; grace
  shorter than a day does nothing for daily streaks (`Streak.ShortGraceIsNone`, `Streak.LongGraceForgives`).
- A failure report that lands after the commit reopens a processed event, so an event commits once for each such
  report and once more while it stands processed; at most once exactly when there was no report, or one and no
  commit since (`EventProcessing.ExactlyOnce`, `EventProcessing.LateMarkReopens`, `EventProcessing.LateMarkReapplies`).
- An exponential threshold is rounded down, so it reaches its level only when the geometric sum is whole
  (`Progression.ExponentialThreshold`, `Progression.ThresholdFallsShort`).
- "Progress is preserved" by a merge (`platform/services/control-plane/internal/identity/identity.go:101-102`):
  experience is, but the level is the greater of two and not the level of the sum, except exactly where
  `TrackMerge.JoinedLevelExactly` says, for linear, exponential and monotone formula tracks
  (`TrackMerge.JoinedLevelLags` is an input).
- A key that both users of a merge own in a re-owned table is called acceptable
  (`platform/services/control-plane/internal/identity/identity.go:196-199`). PostgreSQL aborts the transaction at the
  refused statement, so the whole merge fails and the source is not archived: a valid merge happens exactly when no
  two rows would meet (`WalletAgreement.MergeHappens`, `WalletAgreement.SharedChallengeRefusesMerge`).

## Model

| member | source | states |
|---|---|---|
| FormulaLexer.Lex | platform/crates/formulas/src/lexer.rs:33-191 | the scanning loop returns the tokens, or the first error, of the recursive specification, the token cap included |
| FormulaLexer.ScanIsLexable | platform/crates/formulas/src/lexer.rs:135-177 | a scanned token is always of a spellable kind: decimal value, string missing one quote, identifier that is no keyword |
| FormulaLexer.LexImage | platform/crates/formulas/src/lexer.rs:182-190 | lexing yields at most the cap of tokens, all spellable, closed by the only end mark |
| FormulaLexer.ScanLexeme | platform/crates/formulas/src/lexer.rs:41-177 | the spelling of any token followed by a blank scans back to it in any surroundings |
| FormulaLexer.LexRender | platform/crates/formulas/src/lexer.rs:33-191 | from any position and count, lexing rendered tokens gives those tokens while they fit the cap |
| FormulaLexer.LexerRoundTrip | platform/crates/formulas/src/lexer.rs:33-191 | lexing undoes rendering for every list of spellable tokens within the cap |
| FormulaSpelling.NumeralDenotes | platform/crates/formulas/src/lexer.rs:135-146 | a numeral is worth its digits by place, whole and fraction, and nothing else |
| FormulaSpelling.ScanSpells | platform/crates/formulas/src/lexer.rs:33-181 | every token the scanner emits is spelled by exactly the characters it took: symbols, quoted text, numerals, names, keywords in any case |
| FormulaSpelling.SpellingScans | platform/crates/formulas/src/lexer.rs:33-181 | every spelling of a token before a blank or the end is scanned as that token |
| FormulaSpelling.LexTokenizes | platform/crates/formulas/src/lexer.rs:33-191 | a lexed text is the spellings of its tokens in order and blanks, and nothing more |
| FormulaParser.ParseAt | platform/crates/formulas/src/parser.rs:111-238 | every grammar rule that succeeds consumes at least one token and stays inside the token list, which is why the mutual recursion ends |
| FormulaParser.ParseTail | platform/crates/formulas/src/parser.rs:111-181 | continuing a run never moves back and never passes the end |
| FormulaParser.ParseArgList | platform/crates/formulas/src/parser.rs:212-226 | a successful argument list is not empty and consumes at least one token |
| FormulaParser.Parser.Next | platform/crates/formulas/src/parser.rs:82-86 | hands out the current token, the end mark past the end, and moves on by one |
| FormulaParser.Parser.CountNode | platform/crates/formulas/src/parser.rs:88-94 | counts one node and objects beyond the limit |
| FormulaParser.Parser.DepthGuard | platform/crates/formulas/src/parser.rs:96-109 | guarded parsing agrees with its specification and leaves the depth as it found it, on every path |
| FormulaParser.Parser.ParseBinary | platform/crates/formulas/src/parser.rs:111-181 | the loop of each binary level builds the left-associative tree of the specification, at most one comparison, and moves position and counter as specified |
| FormulaParser.Parser.ParseUnary | platform/crates/formulas/src/parser.rs:183-197 | prefix operators nest through the depth guard |
| FormulaParser.Parser.ParsePrimaryTokens | platform/crates/formulas/src/parser.rs:199-237 | literals, parentheses, variables and calls with their error cases |
| FormulaParser.Parser.ParseArguments | platform/crates/formulas/src/parser.rs:212-226 | the argument loop collects the list of the recursive specification or its error |
| FormulaParser.ParseText | platform/crates/formulas/src/parser.rs:55-63 | lexing, parsing and the check for trailing tokens together give the specified tree or error |
| FormulaGrammar.ParseSound | platform/crates/formulas/src/parser.rs:96-238 | whatever any level reads is derived by the grammar from exactly the tokens read, nesting no deeper than allowed |
| FormulaGrammar.TailSound | platform/crates/formulas/src/parser.rs:111-181 | the same for a run of operators: left-associative, at most one comparison |
| FormulaGrammar.ParseComplete | platform/crates/formulas/src/parser.rs:96-238 | whatever the grammar derives at a level is read as derived, wherever it stands with room and nothing that extends it; redundant parentheses included |
| FormulaGrammar.BinaryComplete | platform/crates/formulas/src/parser.rs:111-181 | the case of binary operators |
| FormulaGrammar.UnaryComplete | platform/crates/formulas/src/parser.rs:183-197 | the case of prefix operators |
| FormulaGrammar.ParensComplete | platform/crates/formulas/src/parser.rs:204-210 | the case of parentheses |
| FormulaGrammar.CallComplete | platform/crates/formulas/src/parser.rs:211-231 | the case of calls, sixteen arguments at most |
| FormulaGrammar.ArgsComplete | platform/crates/formulas/src/parser.rs:212-226 | the case of argument lists |
| FormulaGrammar.TokensParseExactly | platform/crates/formulas/src/parser.rs:55-63 | a closed token list parses to a tree exactly when the grammar derives it from all tokens before the end mark |
| FormulaGrammar.AcceptsExactly | platform/crates/formulas/src/parser.rs:55-63 | a text parses to a tree exactly when it has at most 2,048 tokens and the grammar derives the tree from all of them, nesting at most 64 deep |
| FormulaGrammar.Unambiguous | platform/crates/formulas/src/parser.rs:1-20 | within the limits no token list derives two trees |
| FormulaBudget.ParseBudget | platform/crates/formulas/src/parser.rs:88-181 | each successful parse is paid for by its tokens: counted nodes and tree size at most the tokens consumed, calls at most a third; the node error never occurs |
| FormulaBudget.TailBudget | platform/crates/formulas/src/parser.rs:150-181 | the same for a run of operators that continues a tree already read |
| FormulaBudget.GuardBudget | platform/crates/formulas/src/parser.rs:96-109 | the same through one nesting step, which costs one more node |
| FormulaBudget.PrimaryBudget | platform/crates/formulas/src/parser.rs:199-237 | the same for literals, parentheses and calls |
| FormulaBudget.ArgsBudget | platform/crates/formulas/src/parser.rs:212-226 | the same for argument lists, with a token to spare |
| FormulaBudget.NodeBudgetUnreachable | platform/crates/formulas/src/parser.rs:52-94 | no text can produce the node-budget error; trees have at most 2,048 nodes and at most a third of that many calls |
| FormulaEval.Evaluator.Eval | platform/crates/formulas/src/eval.rs:43-162 | evaluation order, error propagation and the call budget cell follow the specification |
| FormulaEval.Evaluator.EvalAll | platform/crates/formulas/src/eval.rs:119-123 | arguments are evaluated left to right up to the first failure |
| FormulaEval.EvalAccounted | platform/crates/formulas/src/eval.rs:106-118 | a successful evaluation spends exactly one unit per call; the budget error needs more calls than units |
| FormulaEval.EvalRebuilds | platform/crates/formulas/src/eval.rs:43-162 | every operator and function gets its own operands in place: over a host of terms, evaluation gives the tree back |
| FormulaEval.EvalReportsFirst | platform/crates/formulas/src/eval.rs:43-162 | for any host that fails at some operators and functions, the failure reported is the first in evaluation order, left before right and operands before their operator |
| FormulaEval.Evaluate | platform/crates/formulas/src/eval.rs:26-30 | parse, then evaluate under a fresh budget |
| FormulaEval.DefaultBudgetsSuffice | platform/crates/formulas/src/eval.rs:15-35 | with default limits no text, values or functions can report an exhausted evaluation or node budget |
| FormulaPrinter.PrintLexable | platform/crates/formulas/src/parser.rs:111-238 | printed trees consist of spellable tokens |
| FormulaPrinter.ParsePrint | platform/crates/formulas/src/parser.rs:111-238 | at every level, position, depth and counter with room, parsing the minimally parenthesised form of a tree gives it back and consumes exactly its tokens |
| FormulaPrinter.PrintDerives | platform/crates/formulas/src/parser.rs:111-238 | the minimally parenthesised form is in the grammar, and nests no deeper than its parentheses, prefixes and calls |
| FormulaRoundTrip.DerivedFits | platform/crates/formulas/src/parser.rs:96-238 | the printed form of a derived tree takes no more tokens and nests no deeper than the derivation |
| FormulaRoundTrip.AcceptedTextSpells | platform/crates/formulas/src/parser.rs:55-63 | an accepted text is blanks and the spellings of tokens, and its tree is what the grammar makes of all of them |
| FormulaRoundTrip.ParsedIsPrintable | platform/crates/formulas/src/parser.rs:55-63 | every tree that some text parses to is within all limits when printed |
| FormulaRoundTrip.ParseFormat | platform/crates/formulas/src/parser.rs:55-63 | parsing the printed text of any printable tree gives the tree |
| FormulaRoundTrip.ProducibleIffPrintable | platform/crates/formulas/src/parser.rs:55-238 | the trees the parser can produce are exactly the printable ones |
| FormulaRoundTrip.FormatRoundTrip | platform/crates/formulas/src/parser.rs:55-238 | every text that parses has a canonical form with the same tree, and formatting the canonical form again gives the same text |
| EventGateway.NormalizeTwice | platform/services/control-plane/internal/eventing/gateway.go:39-107 | normalisation is idempotent under any new ids and clock; the stored key depends on what the client sent alone |
| EventGateway.NormalizedHolds | platform/services/control-plane/internal/eventing/gateway.go:39-86 | an event is refused exactly for its first fault; otherwise each field of the row is what was sent, or version 1, source "server", payload `{}`, or what was drawn |
| EventGateway.KeylessIdentity | platform/services/control-plane/internal/eventing/gateway.go:80-107 | when fingerprints do not collide, events without keys share an identity exactly when they say the same, defaults taken for what they stand for |
| EventGateway.EventStore.IngestBatch | platform/services/control-plane/internal/eventing/gateway.go:121-169 | the batch loop inserts and reports exactly as the specification, event by event |
| EventGateway.InsertInvariant | platform/services/control-plane/internal/eventing/gateway.go:174-203 | any insert is refused by the row with its identity, whose id it reports, else by the row holding its id, else appended; uniqueness is kept |
| EventGateway.IngestCorrect | platform/services/control-plane/internal/eventing/gateway.go:117-169 | for any ids, client-chosen or drawn: old rows stand, rows are unique, no row comes from nowhere, and a valid event's result names a row that stands for it exactly when its identity was stored or its id was free at its turn; rejected events have the named fault, and a new row holds the fields of its event |
| EventGateway.TakenIdUnanswered | platform/services/control-plane/internal/eventing/gateway.go:155-162 | an event whose id belongs to a row of another identity reads as a duplicate of itself and is not stored |
| EventGateway.DrawnIdsFree | platform/services/control-plane/internal/eventing/gateway.go:45-47 | events that leave their id to the server never meet that case |
| EventGateway.ReplayIsHarmless | platform/services/control-plane/internal/eventing/gateway.go:117-169 | sending a stored batch again changes nothing and reports the original ids |
| EventGateway.OneRowPerKey | platform/services/control-plane/internal/eventing/gateway.go:176-195 | two rows of one environment with one idempotency key are the same row |
| EventGateway.CheckRequest | platform/services/control-plane/internal/api/handlers_events.go:40-55 | the validation loop scopes and normalises all events or refuses the request on the first bad one |
| EventGateway.CountResults | platform/services/control-plane/internal/api/handlers_events.go:62-71 | the loop counts inserted and duplicate results |
| EventGateway.IngestEvents | platform/services/control-plane/internal/api/handlers_events.go:18-77 | empty, oversized and invalid requests are refused without touching the table; others are ingested whole |
| EventGateway.IngestNormalized | platform/services/control-plane/internal/api/handlers_events.go:51-57 | the second normalisation inside the batch changes nothing |
| EventGateway.CountsAreTrue | platform/services/control-plane/internal/api/handlers_events.go:62-76 | `inserted` is the number of new rows, and the rest of a valid request are duplicates |
| EventGateway.HandleCorrect | platform/services/control-plane/internal/api/handlers_events.go:18-77 | for any ids a successful reply answers every event of its request in order and its counts are true; an error reply means nothing was stored |
| EventGateway.HandleRefuses | platform/services/control-plane/internal/api/handlers_events.go:18-55 | status 413 exactly for more than 500 events, 422 exactly for none or one that names no actor or has a fault |
| EventGateway.HandleNamesAll | platform/services/control-plane/internal/api/handlers_events.go:18-77 | when ids are left to the server a successful reply names a row for every event of the request |
| EventClient.UEPClient.TrackEvent | platform/sdk/web/src/index.ts:115-126 | user, clock and random key fill what the caller left out; the event joins the end of the queue, and a full queue starts a flush |
| EventClient.ClientKeyIsStored | platform/sdk/web/src/index.ts:116-121 | the key chosen or drawn by the client is the key the event is stored under, whenever it is delivered |
| EventClient.FillCarries | platform/sdk/web/src/index.ts:115-126 | a row that holds a tracked event holds what the caller passed, field by field, with the client's user and clock for what was left out |
| EventClient.UEPClient.Flush | platform/sdk/web/src/index.ts:129-137 | at most 500 events leave the front of the queue, only when no batch is out |
| EventClient.UEPClient.OnReply | platform/sdk/web/src/index.ts:137-151 | settles the batch by index on success, rejects it on permanent errors, puts it back in front otherwise |
| EventClient.FlushTakes | platform/sdk/web/src/index.ts:129-132 | a flush takes all that waits, up to 500, from the front, and nothing while a batch is out |
| EventClient.TrackFlushes | platform/sdk/web/src/index.ts:115-126 | tracking starts a flush exactly when it fills a batch |
| EventClient.ReplySettles | platform/sdk/web/src/index.ts:133-151 | a success resolves the batch's promises and no other, a status of 400 to 499 other than 429 rejects them all, anything else puts the batch back in front |
| EventClient.TrackKeeps | platform/sdk/web/src/index.ts:115-126 | the client's promises stay partitioned and waiting events stay in track order when one is added |
| EventClient.BeginFlushKeeps | platform/sdk/web/src/index.ts:129-136 | starting a flush moves events from queue to flight without changing what waits or its order |
| EventClient.EndFlushKeeps | platform/sdk/web/src/index.ts:133-151 | any reply or failure keeps the partition and frees the client for the next flush |
| EventClient.ResolutionAt | platform/sdk/web/src/index.ts:137-138 | the event at each position of the batch gets the result at that position |
| IngestionRun.RunKeeps | platform/sdk/web/src/index.ts:115-152 | the invariant of client, requests, replies and rows holds after every interleaving of track, flush, delivery (late or repeated), reply, error and loss |
| IngestionRun.EffectivelyOnce | platform/services/control-plane/internal/eventing/gateway.go:117-203 | after any run each tracked event is in exactly one place, waiting events are in track order, no request exceeds 500, rows are unique, and a resolved event has exactly one row, which its own result names and which holds what was tracked under its key |
| IngestionRun.OwnRowKeeps | platform/services/control-plane/internal/eventing/gateway.go:39-86 | a row of the run holds an event tracked under its key, so the event itself when no other event and no older row has that key |
| IngestionRun.UndisturbedSettles | platform/sdk/web/src/index.ts:129-152 | after any run, delivering the request that is out and returning its reply resolves or rejects every promise of the batch and frees the client |
| IngestionRun.BadEventLosesBatch | platform/sdk/web/src/index.ts:139-149 | one event the gateway will not take loses its whole batch of up to 500: nothing is stored and every promise is rejected |
| CommandKeys.KeyInjective | platform/crates/core-engine/src/commands.rs:51-54 | beside its source, the key determines event and index even when ids contain colons |
| CommandKeys.KeyAloneAmbiguous | platform/crates/core-engine/src/commands.rs:54-54 | without the source two different commands can share a key |
| CommandKeys.SourceCollision | platform/crates/core-engine/src/process.rs:530-563 | two issuers share a source exactly when they are the same, or a challenge is named like an achievement's rewards |
| EventProcessing.Transact | platform/services/control-plane/internal/processing/processing.go:374-428 | a processed event is left alone with all its commands skipped, an error undoes everything, otherwise all commands and the status change together |
| EventProcessing.ApplyAllAppends | platform/services/control-plane/internal/processing/processing.go:391-403 | a committed command list only appends rows, never repeats a reference, and leaves every currency command recorded |
| EventProcessing.ReplayChangesNothing | platform/services/control-plane/internal/processing/processing.go:501-511 | applying recorded commands again moves no money and does not fail |
| EventProcessing.RunKeeps | platform/services/control-plane/internal/processing/processing.go:58-122 | over any steps of any number of processors the ledger only grows, references stay unique and each event's commits are counted by its late failure reports and its status |
| EventProcessing.ProcessorMoves | platform/services/control-plane/internal/processing/processing.go:58-122 | where each step leaves the processor that takes it, and that no other moves |
| EventProcessing.CommittedStays | platform/services/control-plane/internal/processing/processing.go:374-428 | what a commit recorded is still there after any further steps |
| EventProcessing.ExactlyOnce | platform/services/control-plane/internal/processing/processing.go:83-115 | each (source, event, index) has at most one ledger row, a row belongs to one such triple, and an event's commits are exactly the failure reports that overwrote its processed mark, plus one while it stands processed; at most one commit iff no such report, or one and not processed since |
| EventProcessing.LateMarkReopens | platform/services/control-plane/internal/processing/processing.go:107-115 | in any state where an event stands processed, a late failure report is what lets the next outcome for it commit |
| EventProcessing.LateMarkReapplies | platform/services/control-plane/internal/processing/processing.go:107-115 | a lost commit reply, its late report and a retry commit one earn twice, and the ledger still holds it once |
| Ledger.BalanceSum | platform/crates/economy/src/lib.rs:89-96 | balances add over concatenated ledgers |
| Ledger.LedgerKernel.Wallet | platform/crates/economy/src/lib.rs:98-107 | the wallet view has one entry per currency ever held, equal to its balance |
| Ledger.LedgerKernel.Net | platform/crates/economy/src/lib.rs:132-138 | the accumulated map holds the batch's net effect on each account it touches |
| Ledger.LedgerKernel.CheckNet | platform/crates/economy/src/lib.rs:140-171 | finds an error exactly when some account's net final balance breaks its policy, and the error is true of the batch |
| Ledger.LedgerKernel.Apply | platform/crates/economy/src/lib.rs:113-179 | accepts exactly the batches without replay whose net balances are allowed; appends them whole, or changes nothing and says why |
| Ledger.LedgerKernel.Reverse | platform/crates/economy/src/lib.rs:183-216 | succeeds exactly when the entry exists, is not reversed and its compensation is allowed; appends that compensation, or changes nothing |
| Ledger.CompensationIs | platform/crates/economy/src/lib.rs:197-210 | every field of a compensating entry |
| LedgerRun.Perform | platform/crates/economy/src/lib.rs:113-216 | one operation of the kernel is one step of the run |
| LedgerRun.NextKeeps | platform/crates/economy/src/lib.rs:113-216 | a step appends only, keeps reversals linked to one earlier entry each, references indexed and every balance within policy |
| LedgerRun.EveryRun | platform/crates/economy/src/lib.rs:84-216 | the invariant holds in every state reached from the empty ledger |
| LedgerRun.ChainSumIs | platform/crates/economy/src/lib.rs:183-216 | a chain of reversals on reversals contributes its original amount when its length is even and nothing when odd |
| LedgerRun.BalanceIsStanding | platform/crates/economy/src/lib.rs:89-216 | in every reachable state a balance is the sum of the original entries whose reversal chain is even, and is within policy |
| LedgerRun.ReversalUndoes | platform/crates/economy/src/lib.rs:183-216 | an accepted reversal takes the amount back off its account and no other, and the entry cannot be reversed again |
| LedgerRun.ReversalAccepted | platform/crates/economy/src/lib.rs:193-215 | an unreversed entry can be reversed exactly when the reference of its reversal is unrecorded and the balance without the entry is allowed now |
| LedgerRun.ReversalRefused | platform/crates/economy/src/lib.rs:212-215 | earn, spend, reverse the earn: refused |
| LedgerRun.ReversalReferenceTaken | platform/crates/economy/src/lib.rs:205-214 | an ordinary entry recorded under a reversal's reference bars that reversal for good |
| LedgerRun.ReferenceTakenFirst | platform/crates/economy/src/lib.rs:205-214 | earn, record an entry under the reversal's reference, reverse the earn: refused although the balance allows it |
| LedgerRun.ReplayAcrossBatchesOnly | platform/crates/economy/src/lib.rs:118-130 | references stay unique exactly when the batch's own are |
| LedgerRun.ReplayInsideBatch | platform/crates/economy/src/lib.rs:118-130 | a batch holding the same grant twice is accepted and counts twice |
| WalletStore.Store.ApplyOne | platform/services/control-plane/internal/processing/processing.go:432-540 | one currency command: skip a recorded reference, else insert, recompute, check the policy, overwrite the wallet row |
| WalletStore.Store.ApplyCommands | platform/services/control-plane/internal/processing/processing.go:391-428 | all commands or none |
| WalletStore.Store.AdjustWallet | platform/services/control-plane/internal/player/player.go:274-321 | a repeated reference reports the balance, an overdraft is refused, otherwise row and wallet change together |
| WalletStore.Store.PurchaseProduct | platform/services/control-plane/internal/api/handlers_monetization.go:21-127 | incomplete requests, unknown products and used keys change nothing; otherwise the key is spent and a credits product adds the discounted price to the wallet, whether or not its ledger row went in |
| WalletStore.Store.MergeAnonymous | platform/services/control-plane/internal/identity/identity.go:103-232 | invalid merges and those with a clash in a re-owned table change nothing; otherwise rows are re-owned, wallets and experience are summed, levels maximised, the source's rows deleted and ledger entries re-pointed |
| WalletAgreement.CommandMoves | platform/services/control-plane/internal/processing/processing.go:432-540 | an earn or spend is skipped when recorded, rolls its transaction back exactly when the sum it leaves is not allowed, and otherwise is one row and that sum, all other wallets unmoved |
| WalletAgreement.AdjustMoves | platform/services/control-plane/internal/player/player.go:274-321 | an adjustment is refused exactly when it is new, would go below zero and may not; otherwise it adds its amount to one wallet once |
| WalletAgreement.PurchaseAnswers | platform/services/control-plane/internal/api/handlers_monetization.go:30-92 | which answer each purchase request gets |
| WalletAgreement.PurchaseCredits | platform/services/control-plane/internal/api/handlers_monetization.go:94-121 | a completed purchase adds the charged amount to the one wallet of the product's currency, with its ledger row, and touches nothing else |
| WalletAgreement.PriceIs | platform/services/control-plane/internal/api/handlers_monetization.go:52-61 | a discount takes its percentage off, and the rest is rounded toward zero |
| WalletAgreement.PurchaseSpendsKey | platform/services/control-plane/internal/api/handlers_monetization.go:63-91 | after a completed purchase and any further writes, a request with the same key completes nothing, changes nothing and is answered as repeated |
| WalletAgreement.OnePurchasePerKey | platform/services/control-plane/internal/api/handlers_monetization.go:63-91 | in no run of any writers does one key complete two purchases |
| WalletAgreement.KeylessAlwaysCompletes | platform/services/control-plane/internal/api/handlers_monetization.go:63-66 | a well-formed request without a key completes exactly when its transaction id is new |
| WalletAgreement.CommandsAgree | platform/services/control-plane/internal/processing/processing.go:513-539 | engine commands keep wallet rows equal to ledger sums, and applied plus skipped is all of them |
| WalletAgreement.CreditAgrees | platform/services/control-plane/internal/api/handlers_monetization.go:105-118 | an increment keeps agreement exactly when its ledger row was new or worth nothing |
| WalletAgreement.PurchaseAgrees | platform/services/control-plane/internal/api/handlers_monetization.go:21-127 | any purchase request keeps agreement exactly when it credits nothing, its transaction id is new to the ledger, or the discounted price is zero |
| WalletAgreement.CreditGap | platform/services/control-plane/internal/api/handlers_monetization.go:105-118 | how far one credit drives one wallet row from its sum |
| WalletAgreement.RepointBalance | platform/services/control-plane/internal/identity/identity.go:226-232 | re-pointing moves whole balances from source to target and touches nobody else |
| WalletAgreement.MergeAgrees | platform/services/control-plane/internal/identity/identity.go:210-232 | a merge keeps agreement and references, and when it happens the target ends with both balances in every currency |
| WalletAgreement.MergeHappens | platform/services/control-plane/internal/identity/identity.go:183-206 | a valid merge happens exactly when re-owning keeps every row apart; then every ledger entry and re-owned row of the source is the target's and all others stand, otherwise the source stays a user and nothing is moved |
| WalletAgreement.SharedChallengeRefusesMerge | platform/services/control-plane/internal/identity/identity.go:183-206 | two users with progress on one challenge cannot be merged |
| WalletAgreement.CacheAgreesWithLedger | platform/services/control-plane/internal/processing/processing.go:501-539 | after any sequence of engine, adjust, purchase and merge writes every wallet row, or zero, is its ledger sum |
| TrackMerge.MergedTrackIs | platform/services/control-plane/internal/identity/identity.go:144-166 | every track of every user after a merge that happens: joined, moved, deleted or untouched |
| TrackMerge.MergeConservesXp | platform/services/control-plane/internal/identity/identity.go:148-166 | on each track the two users together keep their experience, all of it with the target when the merge happens |
| TrackMerge.JoinedLevelLinear | platform/services/control-plane/internal/identity/identity.go:155-159 | on a linear track the joined level is that of the joined experience exactly when the smaller total does not reach the next threshold |
| TrackMerge.JoinedLevelExponential | platform/services/control-plane/internal/identity/identity.go:155-159 | on an exponential track that climbs, exactly when the sum stays below the next geometric threshold or no level is left |
| TrackMerge.JoinedLevelFormula | platform/services/control-plane/internal/identity/identity.go:155-159 | on a monotone formula track, exactly when the sum stays below the next threshold or the search finds none, with the cases past the search cap and the level cut |
| TrackMerge.JoinedLevelExactly | platform/services/control-plane/internal/identity/identity.go:155-159 | for linear, exponential (any factor) and monotone formula tracks and their degenerate settings, the joined level is that of the joined experience exactly when the sum gains no level |
| TrackMerge.JoinedLevelLags | platform/services/control-plane/internal/identity/identity.go:155-159 | sixty and sixty points on a track of a hundred a level leave level 0 at 120 |
| GoRefinesRust.CommitsIffStepsAllowed | platform/services/control-plane/internal/processing/processing.go:496-540 | on fresh references the control plane commits exactly when every intermediate balance is allowed |
| GoRefinesRust.CommittedIsAccepted | platform/crates/economy/src/lib.rs:132-171 | what the control plane commits the engine's net check accepts, with the same final balances |
| GoRefinesRust.AcceptedIsCommitted | platform/services/control-plane/internal/processing/processing.go:496-540 | the converse from allowed balances when each currency's amounts share a sign |
| GoRefinesRust.SpendThenEarn | platform/services/control-plane/internal/processing/processing.go:523-529 | without that the converse fails: spend then earn |
| SplitMix.Prng.NextU64 | platform/crates/simulation/src/lib.rs:24-30 | steps the state by the odd constant and returns its mix |
| SplitMix.MixBijective | platform/crates/simulation/src/lib.rs:26-29 | the output mixing is a bijection on 64-bit words, with its inverse |
| SplitMix.StateIs | platform/crates/simulation/src/lib.rs:24-25 | after n draws the state is the seed plus n times the constant, modulo 2^64 |
| SplitMix.NoRepeatWithinPeriod | platform/crates/simulation/src/lib.rs:24-30 | no word repeats within 2^64 consecutive draws, and the next one repeats |
| SplitMix.EveryWordDrawnOnce | platform/crates/simulation/src/lib.rs:24-30 | from any seed each word is drawn exactly once per cycle |
| Progression.Climb | platform/crates/progression/src/lib.rs:48-58 | the accumulating loop stops where the recursive climb over geometric sums does |
| Progression.SumSteps | platform/crates/progression/src/lib.rs:97-104 | the loop adds up the geometric sum |
| Progression.FindUpper | platform/crates/progression/src/lib.rs:108-112 | doubling stops at the first power of two that reaches the level, or at 2^40 |
| Progression.SearchThreshold | platform/crates/progression/src/lib.rs:106-122 | the two loops compute the specified bisection |
| Progression.ComputeLevel | platform/crates/progression/src/lib.rs:32-78 | the level of each model, degenerate settings included |
| Progression.ComputeRequired | platform/crates/progression/src/lib.rs:87-124 | the threshold of each model, degenerate settings included |
| Progression.LinearAdjoint | platform/crates/progression/src/lib.rs:34-38 | level at least n exactly when experience reaches n's threshold; below level zero the exact exception |
| Progression.LinearNext | platform/crates/progression/src/lib.rs:81-84 | the reported remainder is the least that gains a level |
| Progression.ClimbIs | platform/crates/progression/src/lib.rs:48-58 | climbing stops at the last level, up to 1,000, whose sum is met |
| Progression.ExponentialAdjoint | platform/crates/progression/src/lib.rs:40-59 | level at least n exactly when experience reaches the geometric sum, for n up to 1,000 |
| Progression.ExponentialThreshold | platform/crates/progression/src/lib.rs:93-105 | the rounded threshold reaches its level exactly when the sum is whole; one more always does and one less never |
| Progression.ThresholdFallsShort | platform/crates/progression/src/lib.rs:93-105 | base 1, factor 1.5: the threshold of level 2 is 2, which is only level 1 |
| Progression.ExponentialCap | platform/crates/progression/src/lib.rs:32-107 | the climb ends at level 1,000, reached exactly when its sum is met; later thresholds are that one's |
| Progression.FlatGrowthIsLinear | platform/crates/progression/src/lib.rs:32-107 | without growth an exponential track has the levels, thresholds and remainders of the linear one |
| Progression.FreeTracks | platform/crates/progression/src/lib.rs:32-107 | a track that costs nothing has level 0 alone, and levels up to 0 need nothing on any track |
| Progression.RemainderIs | platform/crates/progression/src/lib.rs:81-85 | the remainder is what is missing from the next threshold, or nothing |
| Progression.FormulaBoundary | platform/crates/progression/src/lib.rs:106-122 | for any formula the search ends on a point that reaches the level, or the cap, with the one before it short of it |
| Progression.FormulaThreshold | platform/crates/progression/src/lib.rs:106-132 | for a monotone formula it is the least experience that reaches the level, when 2^40 does |
| Ranking.SortIs | platform/crates/ranking/src/lib.rs:52-53 | sorting permutes the entries into key order |
| Ranking.AssignRanks | platform/crates/ranking/src/lib.rs:55-83 | the first pass opens a new rank at each row that does not tie with the one before |
| Ranking.RunLength | platform/crates/ranking/src/lib.rs:87-93 | counts the maximal stretch of one rank |
| Ranking.FillTies | platform/crates/ranking/src/lib.rs:85-99 | the second pass writes each stretch's length into its rows |
| Ranking.RankEntries | platform/crates/ranking/src/lib.rs:51-101 | both passes together compute the specified ranking |
| Ranking.RankCounts | platform/crates/ranking/src/lib.rs:51-101 | rank is one plus the entries with a strictly smaller key, `tied_with` the entries with an equal one, counted over the input |
| Ranking.RankIgnoresOrder | platform/crates/ranking/src/lib.rs:51-101 | with one entry per user the board does not depend on input order |
| Ranking.SqlRankIsPosition | platform/services/control-plane/internal/player/player.go:163-167 | on a highest-first, earliest-first board the SQL rank is the position in the engine's order, inside its rank's run of ties |
| Ranking.SqlTiedAgrees | platform/services/control-plane/internal/player/player.go:169-172 | the SQL tie count is at least the engine's, and equal exactly when all equal scores were reached at one instant |
| Ranking.SqlRankIsSharedRank | platform/services/control-plane/internal/player/player.go:160-167 | the SQL rank is the engine's shared rank exactly for the least user id among ties |
| Ranking.TiedRowsDiffer | platform/services/control-plane/internal/player/player.go:160-167 | two tied rows share rank one and get SQL ranks 1 and 2 |
| Ranking.SqlRankCounts | platform/services/control-plane/internal/player/player.go:163-167 | the SQL rank counts higher scores and, among equal ones, those it puts ahead |
| Ranking.PositionCounts | platform/crates/ranking/src/lib.rs:51-53 | a row's position counts the rows its board's own order puts ahead |
| Ranking.SqlRankOnAnyBoard | platform/services/control-plane/internal/player/player.go:163-167 | for every direction and tie-breaker, the SQL rank is the position exactly when both orders put equally many rows ahead |
| Ranking.SqlRankOffBy | platform/services/control-plane/internal/player/player.go:163-167 | on every board the SQL rank is off by the scores above against those the direction prefers, and by the equal scores only SQL puts ahead against those only the tie-breaker does; highest first, it is right exactly when the latter two are equally many |
| Ranking.TieBreakersIgnored | platform/services/control-plane/internal/player/player.go:163-167 | of two equal scores the later is first on latest-first and, with the lesser id, on id-only boards, and SQL calls it second |
| Ranking.SqlRankMirrorsLowest | platform/services/control-plane/internal/player/player.go:163-167 | on a lowest-first, earliest-first board the SQL rank is off by the scores above less the scores below, and right exactly when they are equally many |
| Ranking.LowestBoardReversed | platform/services/control-plane/internal/player/player.go:163-167 | on a lowest-first board the lower of two scores is first and SQL calls it second |
| Ranking.SqlRankReversesScores | platform/services/control-plane/internal/player/player.go:163-167 | with distinct scores a lowest-first board is numbered backwards, whatever breaks its ties |
| TimeWindows.DayRoundTrip | platform/crates/common/src/time.rs:63-115 | every day number is a valid date whose number it is |
| TimeWindows.DateRoundTrip | platform/crates/common/src/time.rs:63-115 | every valid date is recovered from its day number |
| TimeWindows.CalendarSteps | platform/crates/common/src/time.rs:63-115 | day 0 is 1 January 1970 and each day is the calendar's next date, with months of 31, 30, 28 or 29 days under the Gregorian leap rule |
| TimeWindows.LocalRoundTrip | platform/crates/common/src/time.rs:63-66 | wall-clock fields are recovered from the instant |
| TimeWindows.StartOf | platform/crates/common/src/time.rs:66-115 | where each unit's window begins, in days or hours |
| TimeWindows.EndOf | platform/crates/common/src/time.rs:164-184 | where it ends, December and leap years included |
| TimeWindows.WindowLength | platform/crates/common/src/time.rs:164-184 | the window of every instant lasts an hour, a day, seven days, its month's days or its year's |
| TimeWindows.WindowOpens | platform/crates/common/src/time.rs:66-115 | it opens on an hour, a midnight, a Monday, the first of its month or 1 January |
| TimeWindows.EpochDates | platform/crates/common/src/time.rs:82-84 | day 4, a Monday, is 5 January 1970 |
| TimeWindows.KeySays | platform/crates/common/src/time.rs:66-115 | its key is that hour, day, month or year, or the week of its Monday |
| TimeWindows.RollingWindow | platform/crates/common/src/time.rs:53-62 | a rolling window ends at its instant, lasts its length or one second, and its key names both ends |
| TimeWindows.WindowContains | platform/crates/common/src/time.rs:51-126 | an instant lies in its own window |
| TimeWindows.WindowShared | platform/crates/common/src/time.rs:51-126 | every instant of a window resolves to that window |
| TimeWindows.KeyDecides | platform/crates/common/src/time.rs:66-115 | equal keys mean equal windows, the Monday-start week key included |
| TimeWindows.WindowsPartition | platform/crates/common/src/time.rs:51-126 | two instants share a key exactly when they lie in the same window |
| TimeWindows.EndStartsNext | platform/crates/common/src/time.rs:164-184 | the end of a window is the start of the next |
| TimeWindows.WeekKeyFollowsMonday | platform/crates/common/src/time.rs:84-95 | every week is keyed by its Monday's year and the whole weeks before that day; a week that spans New Year is week 52 or 53 of the old year for all its days |
| TimeWindows.WeekKeyAcrossYears | platform/crates/common/src/time.rs:84-95 | an example: 1 January 2026 is keyed as week 52 of 2025 |
| WindowKeys.TextInjective | platform/crates/common/src/time.rs:55-115 | two keys with the same printed text are the same key, for all units, years and rolling windows |
| WindowKeys.ResolvedPrintable | platform/crates/common/src/time.rs:66-115 | every resolved key's two-digit fields have two digits |
| WindowKeys.TextSays | platform/crates/common/src/time.rs:51-115 | the stored text piece by piece: the unit, a four-digit year and two-digit fields |
| WindowKeys.TextsPartition | platform/crates/common/src/time.rs:51-126 | the texts stored for two instants are equal exactly when they lie in the same window |
| Streak.StreakEntry.ApplyQualifying | platform/crates/core-engine/src/streak.rs:60-168 | the entry and the reported outcome change as specified, in every branch |
| Streak.StreakEntry.Reset | platform/crates/core-engine/src/streak.rs:170-176 | a broken streak restarts at one, keeps its best and frees its freezes |
| Streak.KeyIsMark | platform/crates/common/src/time.rs:51-126 | keys are equal exactly when window starts, or for rolling windows instants, are |
| Streak.StepIs | platform/crates/core-engine/src/streak.rs:20-192 | for every window, grace and order of times, one action leaves, extends or restarts the streak by a condition stated in plain time, and which of the four effects it reports |
| Streak.StepFields | platform/crates/core-engine/src/streak.rs:103-185 | count, best, key, flag and freezes after any action |
| Streak.FirstIs | platform/crates/core-engine/src/streak.rs:83-98 | the first action ever counts one |
| Streak.ApplyAll | platform/crates/core-engine/src/streak.rs:60-168 | a run of actions on one entry is the specified run |
| Streak.CurrentCountsChain | platform/crates/core-engine/src/streak.rs:97-168 | `current` is the number of different windows in the unbroken chain that ends at the last action |
| Streak.BestIsGreatest | platform/crates/core-engine/src/streak.rs:82-176 | for every window, grace and order of times, `best` is the greatest value `current` ever had |
| Streak.ChainIs | platform/crates/core-engine/src/streak.rs:97-168 | that chain is unbroken and cannot be extended backwards |
| Streak.DailyStreak | platform/crates/core-engine/src/streak.rs:97-168 | for UTC days and grace under a day, `current` is the run of consecutive days up to the last action and `best` the longest run there ever was |
| Streak.ShortGraceIsNone | platform/crates/core-engine/src/streak.rs:127-145 | grace under a day gives the same state as none, in any order of times |
| Streak.LongGraceForgives | platform/crates/core-engine/src/streak.rs:127-145 | after any run, grace of a day or more forgives one missed day exactly when the action comes soon enough |
| Streak.RollingChain | platform/crates/core-engine/src/streak.rs:31-47 | for any instants in order a rolling streak counts distinct seconds, chained by gaps under the window, or under two windows and within grace, or because the earlier window began before 1970 |
| Streak.LongWindowsNeverBreak | platform/crates/core-engine/src/streak.rs:26-30 | week, month and year streaks count all windows with an action, gaps or not |
| Streak.HourStreakIsWithinTheDay | platform/crates/core-engine/src/streak.rs:48-56 | an hour streak counts the hours with an action on the last date |
| Streak.StreakIsRunExactly | platform/crates/core-engine/src/streak.rs:20-168 | for every calendar unit and grace, `current` is the run of adjacent windows exactly when its chain joins only the same or adjacent windows and began after a real gap |
| Streak.MissedWindowCounts | platform/crates/core-engine/src/streak.rs:26-30 | two actions with a week, month or year missed between them count two, though their run is one |
| Streak.MidnightBreaks | platform/crates/core-engine/src/streak.rs:48-56 | the last hour of a date and the first of the next are adjacent and count one |
| Challenge.ActorChallenges.ApplyOne | platform/crates/core-engine/src/challenge.rs:37-124 | rollover, completion, clamping and grants of one challenge, the others untouched |
| Challenge.ActorChallenges.IssueGrants | platform/crates/core-engine/src/challenge.rs:102-112 | issues the grants not made before, in reward order |
| Challenge.ActorChallenges.AutoProgress | platform/crates/core-engine/src/process.rs:240-283 | the loop over the configuration gives the specified entries, completions and commands |
| Challenge.ActorChallenges.BuildRewards | platform/crates/core-engine/src/process.rs:271-280 | one command per reward in order, numbered, for this challenge and event, giving what that reward promises |
| Challenge.RewardsPay | platform/crates/core-engine/src/process.rs:509-537 | the kind, target and amount of each command, the default track included |
| Challenge.StepReports | platform/crates/core-engine/src/process.rs:241-283 | which challenges an event reports as completed and every command it brings, in configuration order |
| Challenge.EntryIs | platform/crates/core-engine/src/challenge.rs:65-98 | after any run in time order: progress is the smaller of count and target, status says whether it was reached, `completions` counts earlier windows that reached it |
| Challenge.PaidExactly | platform/crates/core-engine/src/process.rs:247-281 | an event pays exactly when it brings its window to the target of two or more, or is the first ever with target one; grants go out whenever a window reaches its target |
| Challenge.OncePerWindow | platform/crates/core-engine/src/process.rs:247-281 | each window that reaches a target of two or more pays once and no other pays; with target one only the first window does |
| Challenge.RepeatsEachWindow | platform/crates/core-engine/src/process.rs:247-281 | over any run, rewards are sent as often as there are windows that reached a target of two or more, once for a target of one, never for none |
| Challenge.TargetOnePaysOnce | platform/crates/core-engine/src/process.rs:247-262 | with target one, two windows both complete and grant, and only the first pays |
| Challenge.KeysTellWindows | platform/crates/core-engine/src/challenge.rs:9-14 | two events share a window key exactly when there is no window or they lie in the same one |
| Challenge.OutcomeReports | platform/crates/core-engine/src/challenge.rs:37-124 | what one progression reports: where the entry stood and stands, and whether this event completed it |
| Challenge.KeysGrouped | platform/crates/core-engine/src/challenge.rs:9-14 | in time order the events of a window are contiguous |
| Challenge.StepAllAt | platform/crates/core-engine/src/process.rs:241-283 | one event does to each of many challenges what it does to that challenge alone |
| Challenge.RunAllAt | platform/crates/core-engine/src/process.rs:241-283 | over any run each challenge sees exactly its own qualifying events |
| Challenge.ChallengeRewards | platform/crates/core-engine/src/process.rs:241-283 | for a whole configuration and any events in time order, which reward commands the last event brings and the entry it leaves |
| Rules.RuleState.CooldownActive | platform/crates/rules/src/lib.rs:33-41 | cooling exactly when fired less than a cooldown before, or later than now |
| Rules.RuleState.FrequencyCapped | platform/crates/rules/src/lib.rs:44-55 | capped exactly when the window's count has reached a positive cap |
| Rules.RuleState.RecordFire | platform/crates/rules/src/lib.rs:57-65 | sets the last fire and adds one to one window's count of one rule |
| Rules.RuleState.ProcessRules | platform/crates/core-engine/src/process.rs:156-213 | the loop considers candidates in priority order and fires those that pass |
| Rules.ByPriorityIs | platform/crates/core-engine/src/process.rs:156-161 | candidates are a permutation in falling priority |
| Rules.ProcessDecides | platform/crates/core-engine/src/process.rs:163-213 | one event decides each rule by that rule's own counters |
| Rules.CountersTrue | platform/crates/rules/src/lib.rs:21-66 | for events in any time order the stored last fire and daily counts are the true ones |
| Rules.FiresExactly | platform/crates/core-engine/src/process.rs:181-213 | a rule fires exactly when it matches, its condition holds and its past fires leave room under cooldown and cap |
| Rules.CapRestartsEachDay | platform/crates/rules/src/lib.rs:43-65 | with no cooldown, a matching rule always fires for the first event of a day, however often it fired before |
| Rules.FiresThrottled | platform/crates/rules/src/lib.rs:33-65 | successive fires are a cooldown apart and no UTC day has more than the cap |
| Rules.SpacedWithin | platform/crates/rules/src/lib.rs:33-41 | times a gap apart number at most one more than the gaps that fit an interval |
| Rules.FireRate | platform/crates/rules/src/lib.rs:33-41 | any interval of length L holds at most 1 + L / cooldown fires |
| Projection.Engine.Award | platform/crates/core-engine/src/process.rs:393-446 | experience, level, highest level, deltas and watching boards after one award |
| Projection.Engine.ApplyProjection | platform/crates/core-engine/src/process.rs:380-507 | the command loop is the specified projection |
| Projection.Engine.Settle | platform/crates/core-engine/src/process.rs:324-372 | both passes: achievements see the state the first pass left, and a dry run changes nothing here |
| Projection.ModelIs | platform/crates/core-engine/src/process.rs:394-402 | the first definition known by the id or name decides a track's model |
| Projection.FirstAward | platform/crates/core-engine/src/process.rs:403-423 | an actor new to a track starts from no experience and level 0 |
| Projection.DeltasAreSums | platform/crates/core-engine/src/process.rs:391-464 | wallet and experience deltas are the signed sums over the commands |
| Projection.DeltasAreNamed | platform/crates/core-engine/src/process.rs:391-464 | only currencies moved and tracks awarded are reported |
| Projection.OutcomeConserves | platform/crates/core-engine/src/process.rs:324-372 | outside a dry run the deltas cover every emitted command of both passes, and final experience is the reflected total of all awards |
| Projection.LeastPrefixIs | platform/crates/progression/src/lib.rs:148-151 | the correction is the least running total, or zero when none is below it |
| Projection.XpReflected | platform/crates/progression/src/lib.rs:148-151 | a track's experience is its start plus its awards, minus the least running total when that is negative |
| Projection.HighestIsRunningMax | platform/crates/progression/src/lib.rs:148-163 | the level is that of the experience and `highest_level` the greatest level passed through |
| Projection.LevelUpsReported | platform/crates/core-engine/src/process.rs:403-417 | a level-up is reported exactly for tracks whose level some award raised, with the level the last such award reached |
| Projection.BoardScoreIs | platform/crates/core-engine/src/process.rs:427-475 | after any commands a board shows the experience of the last award it watches, or its old score, plus what later commands added by name |
| Projection.BoardUpdatesReported | platform/crates/core-engine/src/process.rs:425-470 | the scores reported are the boards' own, for exactly the boards the commands touched |
| Projection.TracklessBoardFollowsAnyTrack | platform/crates/core-engine/src/process.rs:425-445 | over any commands an experience board without a track, left alone by name, shows the track awarded last, and the default track's total exactly when that was last or the totals are equal |
| Projection.SideTrackTakesBoard | platform/crates/core-engine/src/process.rs:425-445 | ten points on the default track, then five on another: the board shows five |
| Paths.JoinSplit | platform/crates/common/src/value.rs:27-33 | joining the segments of a path gives it back, and no segment has a dot |
| Paths.SplitJoin | platform/crates/common/src/value.rs:27-33 | splitting joined segments gives them back |
| Paths.WalkPath | platform/crates/common/src/value.rs:49-58 | the loop is the recursive walk |
| Paths.ResolvePath | platform/crates/common/src/value.rs:19-47 | the three steps compute exact match, then longest prefix; the third step never adds anything, in any scope |
| Paths.BuildScope | platform/crates/core-engine/src/process.rs:97-116 | the scope holds the context, the event fields, each payload field flat, and the nested event |
| Paths.EventPaths | platform/crates/core-engine/src/process.rs:98-102 | the five flat event fields resolve to the event's own values, whatever payload and actor state hold |
| Paths.EventObjectIs | platform/crates/core-engine/src/process.rs:107-117 | the nested event has exactly its five fields |
| Paths.ContextStays | platform/crates/core-engine/src/process.rs:97-117 | actor state keeps its values beside any event |
| Paths.ShortPaths | platform/crates/common/src/value.rs:24-34 | the empty path leads nowhere, and a single word only to its own key |
| Paths.AddPayload | platform/crates/core-engine/src/process.rs:103-105 | the loop adds one flat key per payload field in any order |
| Paths.ResolveBelowPayload | platform/crates/common/src/value.rs:19-47 | exactly what a path below the payload resolves to, dotted keys included |
| Paths.FlatAgreesWithNested | platform/crates/common/src/value.rs:19-58 | every path below the payload resolves to its plain nested walk exactly when each payload key, read as a path, leads to its own value |
| Paths.DotFreeCoherent | platform/crates/common/src/value.rs:19-58 | payloads whose keys have no dot meet that condition |
| Paths.DottedKeyHides | platform/crates/common/src/value.rs:23-26 | a dotted payload key can hide a nested value |

## Left out

- Machine widths: integers are unbounded except the 64-bit words of the generator, so wrap-around, saturation and i64 overflow are not modelled.
- Floating point: experience models and formula numbers are exact reals; rounding, infinities and number formatting are not modelled.
- FormulaEval.Evaluator.Eval: coercion, comparison, arithmetic and the function whitelist are parameters of the evaluator; only order, errors and the budget are modelled.
- Unicode: the alphabetic and alphanumeric tables and lower-casing are parameters; the round trip needs only that a blank is not alphanumeric.
- FormulaParser.Parser.ParseBinary: the five binary-level functions of the source are one method with the level as a parameter, and inner scanning loops of the lexer are a recursive run function.
- The database schema is not part of the repository, so the unique indexes are those the ON CONFLICT clauses and comments name; each statement is taken to be atomic and transactions serial.
- Fresh values: UUIDs, clock readings and transaction ids are parameters assumed new where a member says so; the content hash is a parameter assumed non-empty.
- IngestionRun.EffectivelyOnce: events come through the web client, whose input type has no event id; `EventGateway.HandleCorrect` covers requests that choose their ids.
- EventClient.UEPClient.TrackEvent: an option passed as explicitly undefined, and metadata, are not modelled.
- Store scope: tables are those of one project environment, and events are values here, so aliasing between a request's events is not modelled.
- WalletStore.Store.ApplyCommands: commands that move no money touch no modelled table; whether such a command counts as applied or skipped, as unknown kinds and repeated entitlements do, is part of the command.
- WalletStore.Store.MergeAnonymous: rule state, boards, identities and sessions are not modelled; of the tables that only change owner, the user and the rest of the unique key are.
- TrackMerge.JoinedLevelExactly: a formula that falls somewhere as experience grows is not covered; its levels are no progression and its thresholds are only the boundaries of `Progression.FormulaBoundary`.
- WalletStore.Store.PurchaseProduct: products, the offer's discount and the currency slug are inputs; subscription and entitlement rows are not modelled.
- EventProcessing.Transact: state snapshot, trace and outbox of the transaction are one outcome that stores or fails; their contents are not modelled, nor are concurrent overwrites of actor state.
- Experience is never lost across concurrent events of one actor: false of the code, which overwrites values loaded without a lock, and not stated.
- Ledger.LedgerKernel.Apply: the order in which net balances are checked is any order, as in the source's hash map, so which of several errors is reported is not fixed.
- Time zones other than UTC, daylight-saving gaps and the date range of the calendar library; instants are whole seconds, since every window start drops the rest.
- Streak.StepIs: keys are read back from their fields, with the cases in which the library does not parse the text kept as such.
- Challenge.EntryIs: unit progress only, without start-challenge or forced completion commands; the expired status, which nothing assigns, is not modelled.
- Rules.RuleState.ProcessRules: whether a rule's condition holds for an event is an input; condition evaluation and action expansion are not modelled.
- Projection.Engine.ApplyProjection: variables, challenge commands inside the projection and the trace are not modelled.
- Projection.Engine.Settle: which achievements unlock, and with what rewards, is an arbitrary function of the projected state.
- Paths.BuildScope: the values of actor context are arbitrary; only the prefixes of their keys are used.
- `position_of`, `top_n`, Elo, milestones, bounded and weighted draws of the generator, event generation: easy members over what is modelled.
- HTTP routing, authentication, webhooks and the outbox publisher, analytics, admin and the other client libraries: no hard invariant.
- Configuration life cycle, achievements, inventory, entitlements, flags and workflow delays.
