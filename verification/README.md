# Alpha-Gate, modelled and verified in Dafny

Alpha-Gate evolves small Python trading strategies. An experiment loop asks an evolver for a
batch of programs, runs each one in a sandbox that reveals one market bar at a time over a
JSONL protocol, backtests the portfolios it answers with, rescores every candidate evaluated
so far, and appends one audit record per candidate to a ledger. This project models those
components and proves what they keep, alone and composed.

| Files | What they model |
|---|---|
| `Protocol`, `Executors` | messages, portfolio checks, sandbox requests and results |
| `ProcessDriver`, `DriverProperties` | the lockstep driver, against any worker |
| `Worker`, `Replies`, `Lockstep`, `Simulation`, `Interleaving` | the worker loop, and driver and worker together |
| `Vectors`, `Backtest`, `Contracts`, `Accounting`, `Positions`, `Reports`, `NoLookAhead` | the windowed backtester, its accounting and its reports |
| `Text`, `LocalEvolver`, `EvolverProperties`, `Mutations`, `SearchTrace`, `Placement`, `EvolverInstance` | the numeric mutator |
| `Ledger`, `Ranking`, `Experiment`, `ExperimentProperties`, `Rounds`, `Selection`, `LocalRun`, `Evaluator`, `DurableRun`, `ConcreteRuns` | the experiment loop and its ledgers |
| `Summary`, `SummaryProperties` | the final summary and its validator |
| `CloudRun`, `SeedStrategy` | the throttle-retry loop, the bundled strategy |

Code that updates state step by step is a class or a method with a loop, proved equal to a
specification function; what the repository promises is then proved about that function, for
all inputs and all runs. What a function computes is also told without it: rankings, portfolios
and parents in comparisons of what was scored, returns and costs as sums over positions and
market rows, byte counts as sums over lines, replies word for word. `dafny verify dfyconfig.toml` checks everything.

## Assumptions

- Prices, weights, returns, rewards and clock readings are real numbers; rounding is not
  modelled. (In floats a tiny weight can underflow the squared sum at
  src/alpha_gate/backtest.py:272-275.) Only float literals of mutated programs are rounded, by
  an arbitrary rounding function. NaN and the infinities are values wherever they are checked.
- The worker is an arbitrary function from the frames it has received to what the driver then
  reads; deadlines, encoded line lengths, the exit code and the stderr chunks are part of that
  environment. Composed with the worker loop, the environment gives the seconds each frame takes
  and those until the exit, and the deadline is the request's own timeout. Operating-system
  errors while writing the worker's stdin are not caught by
  src/alpha_gate/executors/process.py:207-208 and do not occur in the environment. Stderr is
  what was captured up to its end.
- The encoded length of a line is a function of its parsed content: two spellings of one reply
  have one length, and so have all malformed lines.
- Strings are Unicode scalar text. An exception message of candidate code that holds a lone
  surrogate, whose JSON escape the driver's parser refuses, is not represented.
- Candidate code that runs outside the stdout redirect (`tolist`, iteration, `float` of a
  returned item of a float subclass, rendering an exception) may print whole lines on the
  protocol stream, raise or hang; all of it but the rendering is part of the one `onBar` call of
  the model. Text without a newline that runs into the next line is not represented, and neither
  is candidate code that ends the worker process (out of memory, a native crash): a call
  returns, raises or never ends.
- A market panel is rectangular and finite, with positive closes and non-negative spreads.
- `CandidateValidator`, SHA-256, the group scorer, the lexer, `repr` and the random stream are
  parameters. Of the lexer it is assumed only that number tokens carry a digit and no line
  break and stand in the source at their recorded row and column, rows counted by newlines; a
  theorem about one mutation assumes it of the parent at hand. The two guarantees for runs that
  look at the seeds only assume a little more: what `untokenize` makes of newline-only text is
  newline-only and keeps a block (as when it is written back as it is), or what it wrote for a
  mutant is written back unchanged; `ConcreteRuns.LineageAssumptionsHold` meets both. `repr`
  and `str` read back as what was printed, integers only as far as they convert to a float.
  `EvolverInstance.InstanceIsSound` shows the assumptions can be met; the programs of the
  concrete runs of the local evolver define a `Strategy` class with `on_bar`, and the validator
  there accepts everything. The text of a token is the text `untokenize` writes for it; indents
  are written back as they were read, all other gaps as spaces.
- The evolver, evaluator and scorer of an experiment may answer differently in every
  generation, or raise. Appending a line to the ledger file is atomic, and encoding a record is
  an abstract round trip.

## Where the code and its promises differ

- A form feed (or any line break but a newline) in a comment makes `str.splitlines` count more
  lines than the lexer does, so the row test lets a number after the end marker be mutated:
  exactly when the block holds such a number that can be rewritten
  (`EvolverProperties.LeavesBlockExactlyWhen`), and it happens (`EvolverInstance.StrayMutates`).
- `untokenize` keeps positions, not the characters between tokens: a tab there becomes a space.
  A mutant differs from its parent in one number alone exactly when `untokenize` writes the
  parent back unchanged (`EvolverProperties.MutationIsLocal`), and it does happen that no single
  number tells them apart (`EvolverInstance.TabMutates`).
- A form feed between tokens becomes a space too, and with it a line break that
  `str.splitlines` had seen. The mutant keeps the block of its parent exactly when writing the
  parent back keeps it (`EvolverProperties.MutationKeepsBlock`), and it can lose it
  (`EvolverInstance.LostBlockMutates`). Selected as a parent, such a mutant ends the run, the
  only way a missing block does (`LocalRun.MissingBlockExactlyWhen`,
  `ConcreteRuns.LostBlockEndsRun`). It cannot happen from seeds whose only line breaks are
  newlines (`LocalRun.NewlineSeedsNeverMissBlock`), nor, once mutants are written back
  unchanged, from any seeds whose blocks survive being written back
  (`LocalRun.SurvivingSeedsNeverMissBlock`).
- An integer literal of the block that doubles past the float range ends the run with an
  `OverflowError`, which `LocalEvolver.propose` does not catch, unless an unreadable number
  comes first (`EvolverProperties.OverflowExactlyWhen`, `EvolverInstance.OverflowHappens`).
- A mutation's description can outgrow the 512 characters a record allows, and then building
  the record aborts the run after the candidate was evaluated
  (`LocalRun.MutantIsRecordedExactlyWhen`, `ConcreteRuns.LongDescriptionEndsRun`).
- Raising does not always end in `runtime_error`. An exception whose message is longer than 512
  characters, through a long class name, is a `protocol_error`; so is one that cannot be
  rendered, because that happens inside the worker's handler and leaves it without a line
  (`Simulation.FirstMisstepDecides`, `Simulation.LongExceptionNameIsNotReportable`); and so is
  an error frame in reply to the stop frame (`Simulation.ErrorFrameDecides`).
- A candidate whose `tolist` prints puts lines of its own before its answer, and the driver
  takes them for its answers, exactly when they pass for them in time and within the budget
  (`Simulation.FirstMisstepDecides`, `Simulation.CompletesExactlyWhenOwed`); a strategy that
  returns no weights at all can complete so (`Simulation.StandInCompletes`). One line per frame
  holds for the worker's own lines only (`Worker.OneReplyPerLine`).
- The stderr tail is bounded by its limit only because the limit is never zero
  (`DriverProperties.TailBoundNeedsRetention`).
- With a single symbol the bundled strategy's last slice is the whole ranking and the book is
  not market neutral (`SeedStrategy.NeutralExactlyWhen`); the protocol requires two symbols.
- The experiment loop compares each score with its evaluation but never an evaluation with its
  trial: they belong together exactly when the evaluator kept the order in every round
  (`Evaluator.PairedExactlyWhen`), and a run with every pair swapped finishes
  (`ConcreteRuns.SwappedRunFinishes`).

## Model

| member | source | states |
|---|---|---|
| Protocol.ValidateTargetWeights | src/alpha_gate/protocol.py:98-120 | accepts exactly finite portfolios within the count, short, per-position and gross limits, and returns them unchanged |
| Protocol.FirstWeightFault | src/alpha_gate/protocol.py:104-119 | a rejected portfolio has the fault it is rejected for and none that is looked for before it (count, finiteness, short, position, gross, each with the 1e-12 tolerance); an accepted one has none |
| ProcessDriver.DrainStderr | src/alpha_gate/executors/process.py:226-236 | for every chunking of stderr, the total is the bytes seen and the tail the retained end of the stream |
| DriverProperties.TailBoundNeedsRetention | src/alpha_gate/executors/process.py:231-236 | the tail stays within its limit exactly when the limit is positive or nothing was written |
| ProcessDriver.Exchange | src/alpha_gate/executors/process.py:197-223 | one frame is sent; the bytes counted, the response or the first fault of the reply, and the time follow from the reply alone |
| ProcessDriver.AskBars | src/alpha_gate/executors/process.py:119-144 | the bar loop stops at the first faulty exchange with that fault and one frame per bar accepted before it, or accepts every bar |
| ProcessDriver.Lockstep | src/alpha_gate/executors/process.py:106-168 | the guarded part sends a prefix of initialize, bars, stop and ends with the fault of the least faulty exchange, else of the exit |
| ProcessDriver.Execute | src/alpha_gate/executors/process.py:66-195 | status, frames, byte counts, tail and error are those of the least faulty exchange, then the exit, then the output budget |
| DriverProperties.CompletedExactlyWhenClean | src/alpha_gate/executors/process.py:102-195 | for every worker and timing: COMPLETED if and only if every reply is the one called for and admissible, the exit status is 0 and all output fits the budget |
| DriverProperties.FramesAlwaysPrefix | src/alpha_gate/executors/process.py:103-195 | under every status the frames are the first bars in order, each with the admissible portfolio the worker answered it with and the seconds that took |
| DriverProperties.CompletedFrames | src/alpha_gate/executors/process.py:180-195 | COMPLETED gives one frame per bar, exit status 0 and counted output within the limit |
| DriverProperties.FailuresAreExplained | src/alpha_gate/executors/process.py:160-195 | the error is empty exactly for COMPLETED results, and status and frame count are those of the first exchange that went wrong |
| DriverProperties.ResultMeasures | src/alpha_gate/executors/process.py:186-236 | stdout bytes are the lengths of the lines read, up to and with the first exchange that goes wrong; stderr bytes those of the chunks; the tail is an end of what was written there; hash and duration are the request's and the clock's |
| DriverProperties.UnspawnedMeasures | src/alpha_gate/executors/process.py:83-89 | a worker that cannot be started costs no bytes and leaves no frames: unavailable, with the hash and the time taken |
| DriverProperties.FlattenJoins | src/alpha_gate/executors/process.py:228-233 | the stderr stream is its chunks one after the other |
| DriverProperties.ErrorIsDeserved | src/alpha_gate/executors/process.py:106-223 | the first exchange that goes wrong is reported as what happened there: late, too long, closed, over budget, malformed, an error frame, the wrong frame or sequence, or a portfolio with the fault named |
| DriverProperties.OutcomesDependOnlyOnBarsSent | src/alpha_gate/executors/process.py:119-145 | two runs over requests that agree before bar m answer the same of those bars with the same outcomes, whatever comes later |
| Worker.CoerceWeightsLoop | src/alpha_gate/runtime/worker.py:58-72 | the loop returns all items as finite floats or the complaint about the first that is not one |
| Worker.CoercedStopsAtFirst | src/alpha_gate/runtime/worker.py:65-71 | the first unusable item alone decides the complaint |
| Worker.CoercionIsExact | src/alpha_gate/runtime/worker.py:58-72 | entry k is the k-th returned number itself, an int or a finite float; refused exactly when what was returned is no sequence or holds a bool, another type, an integer too large or a float that is not finite, by the exception of the first such item |
| Worker.MessageReads | src/alpha_gate/runtime/worker.py:75-77 | the message is the exception's type, and unless its text is empty a colon, a space and at most 400 characters of it with newlines as spaces |
| Replies.InitializeIsChecked | src/alpha_gate/runtime/worker.py:95-105 | an initialize line is refused for its version, then its symbols, then its seed, word for word, with exit status 1 |
| Replies.BarIsChecked | src/alpha_gate/runtime/worker.py:109-114 | so is a bar before initialize, or one without an integer sequence |
| Replies.OtherLinesAreAnswered | src/alpha_gate/runtime/worker.py:126-139 | and a line of another type; stop is answered and ends the loop with status 0 |
| Worker.Run | src/alpha_gate/runtime/worker.py:80-139 | for every list of input lines the lines written and the exit code are those of the line-by-line account, with hanging calls, candidate output and exceptions that cannot be rendered included |
| Worker.OneReplyPerLine | src/alpha_gate/runtime/worker.py:88-139 | from a loaded module, lines written never exceed lines read plus lines candidate code printed, and equal them while the loop runs |
| Worker.OneReplyOrNone | src/alpha_gate/runtime/worker.py:90-138 | an input line gets one line of the worker's own on top of what candidate code printed, and none exactly when candidate code hangs or its exception cannot be rendered |
| Worker.AnswersExtend | src/alpha_gate/runtime/worker.py:88-139 | lines already written never change as more lines arrive |
| Worker.AnswersSettle | src/alpha_gate/runtime/worker.py:126-139 | once the loop has ended or hangs, further lines change nothing |
| Lockstep.WorkerFollowsFold | src/alpha_gate/runtime/worker.py:87-125 | while the strategy answers with numbers and prints nothing, the worker holds the instance of the fold over the bars and has written one line per frame |
| Lockstep.OwedAtStart | src/alpha_gate/runtime/worker.py:95-108 | the line owed to the first exchange is what constructing the strategy comes to: ready, an error, nothing, the end of the stream, or a line of its own |
| Lockstep.OwedOnBar | src/alpha_gate/runtime/worker.py:109-138 | the line owed to a bar is what the fold's instance does with it, through the whole worker loop |
| Lockstep.OwedAtStop | src/alpha_gate/runtime/worker.py:126-128 | after the last bar the worker owes stopped and returns 0 |
| Simulation.EveryRunIsClassified | src/alpha_gate/executors/process.py:106-195 | for every module, whatever it prints, raises or takes: frame i carries the admissible weights of the line owed to the exchange of bar i, and the first exchange that is late, silent, closed, too long, over budget, malformed or wrong decides status, error and number of frames; without one the exit and the output do; the stdout bytes are the lengths of the lines owed up to there, the stderr bytes those of the chunks |
| Simulation.BehavedPrefix | src/alpha_gate/executors/process.py:106-144 | a behaving strategy gets through every exchange as long as the clock and the byte budget last |
| Simulation.CompletesExactlyWhenOwed | src/alpha_gate/executors/process.py:106-195 | any module, printing or not, completes if and only if the line owed to every exchange is the one it calls for, the worker exits with status 0 in time and its output fits the budget |
| Simulation.CompletesExactlyWhenWellBehaved | src/alpha_gate/executors/process.py:106-185 | a strategy that answers every bar admissibly, in time, within the output budget and with a clean exit completes, the frames being its fold over the bars; one that prints nothing on the protocol stream completes in no other way |
| Simulation.FramesCarryReturned | src/alpha_gate/runtime/worker.py:65-123 | the frame of a bar the strategy behaved on carries the very numbers it returned there, ints and floats as they are |
| Simulation.StandInCompletes | src/alpha_gate/runtime/worker.py:58-72 | a concrete strategy that returns no weights for two symbols and completes with the frame its tolist printed |
| Simulation.FirstMisstepDecides | src/alpha_gate/executors/process.py:119-168 | looping, raising, printing or answering inadmissibly at bar k: late, TIMEOUT with k frames; in time, the run gets past bar k if and only if a printed line passes for the answer and fits the budget, and that line is then frame k; otherwise exactly k frames and TIMEOUT, RUNTIME_ERROR or PROTOCOL_ERROR, raising being RUNTIME_ERROR exactly when rendered to 1 to 512 characters on a line within the budget |
| Simulation.FailedStartDecides | src/alpha_gate/executors/process.py:108-117 | a strategy that cannot be constructed: the driver goes on to the first bar if and only if a printed line passes for ready in time and within the budget; otherwise no frames and the same verdict |
| Simulation.FailedLoadDecides | src/alpha_gate/runtime/worker.py:81-85 | and for a module that raises or hangs while it is loaded |
| Simulation.OutOfBoundsDecides | src/alpha_gate/executors/process.py:107-168 | a strategy that behaves but is late at exchange k, or outgrows the budget there, is TIMEOUT or PROTOCOL_ERROR with exactly the bars answered before |
| Simulation.ExitDecides | src/alpha_gate/executors/process.py:154-185 | with every exchange accepted, a late exit is TIMEOUT, another status than 0 RUNTIME_ERROR naming it, too much output PROTOCOL_ERROR, all frames kept |
| Simulation.ErrorFrameDecides | src/alpha_gate/executors/process.py:127-153 | after an accepted prefix, in any environment, an error frame gives RUNTIME_ERROR if and only if the exchange is not the last |
| Simulation.LongExceptionNameIsNotReportable | src/alpha_gate/runtime/worker.py:75-77 | a concrete exception whose message the protocol rejects |
| Interleaving.InvariantThroughout | src/alpha_gate/runtime/worker.py:88-138 | in every interleaving of the two processes the worker's output is its answer to what it has read and the driver is at most one frame ahead |
| Interleaving.AtMostOneUnanswered | src/alpha_gate/executors/process.py:106-151 | in every interleaving at most one request is unanswered and no bar is sent before the previous answer was read; the stream holds at most one line per frame read plus what candidate code printed |
| Interleaving.EveryReadIsPredicted | src/alpha_gate/executors/process.py:197-217 | every line the driver reads, in any interleaving, is the one owed to that exchange |
| Vectors.CauchySchwarz | src/alpha_gate/backtest.py:272-275 | the squared sum is at most the length times the sum of squares |
| Vectors.EffectivePositions | src/alpha_gate/backtest.py:266-276 | with positive gross, squared gross over the sum of squares lies between 1 and the symbol count, and gross is at most the largest weight times it |
| Vectors.GrossTriangle | src/alpha_gate/backtest.py:279-284 | gross exposure obeys the triangle inequalities turnover rests on |
| Backtest.Backtester.AssetSplit | src/alpha_gate/backtest.py:286-294 | the compounded asset return of a portfolio is its spot return plus its carry component |
| Backtest.Backtester.ScoreSession | src/alpha_gate/backtest.py:278-294 | one pass of the loop: turnover, carry and floored return of a session from the change of portfolio, priced at the previous session's spread |
| Backtest.Backtester.Liquidate | src/alpha_gate/backtest.py:297-306 | after forced liquidation the last return is one floor over one net return and turnover includes the positions closed, held or not |
| Backtest.Backtester.ScoreSessions | src/alpha_gate/backtest.py:256-295 | the accounting loop fills every session's return and diagnostics and adds up turnover and carry over the whole path |
| Backtest.Backtester.ScorePath | src/alpha_gate/backtest.py:256-316 | loop and liquidation together give the window's account: per session max(-0.99, spot + carry - trade cost - final liquidation) |
| Backtest.Backtester.ScoreWindow | src/alpha_gate/backtest.py:235-316 | a window is scored exactly when the frames meet the contract, on the portfolios answered from the last warm-up bar on; otherwise the first breach is reported |
| Backtest.Backtester.TryWindow | src/alpha_gate/backtest.py:138-166 | one executor call per window with that window's request; passed, failed or in breach of contract as the result says |
| Backtest.Backtester.RunWindows | src/alpha_gate/backtest.py:135-166 | the calls made are the first windows' requests, stopping right after the first window that does not pass |
| Backtest.Backtester.Evaluate | src/alpha_gate/backtest.py:119-173 | fails closed: no call for a bad horizon or source; a backtest if and only if every window passed; otherwise the exact error of the last window called |
| Contracts.HorizonExactlyWhen | src/alpha_gate/backtest.py:175-180 | a horizon is accepted if and only if every window, warm-up and last session included, fits into the market; otherwise the missing warm-up or else the missing end is reported |
| Contracts.FirstBreach | src/alpha_gate/backtest.py:242-254 | not one frame per bar, else the first frame out of sequence or with a faulty portfolio, else a run that does not cover the window: that is the complaint made, and none of sound frames |
| Positions.WindowIsEarned | src/alpha_gate/backtest.py:256-316 | the return of a session is the larger of -0.99 and the sum over symbols of w x spot + w x (1 + spot) x carry, less |change of w| x (fee + the session before's spread) / 10000 and, on the last one, |w| x (fee + that session's spread) / 10000; turnover and carry are sums of the same terms |
| Positions.EarnedIsConserved | src/alpha_gate/backtest.py:278-306 | before flooring a window earns spot plus the reported carry, less exactly fee / 10000 x turnover and the sum over sessions and symbols of the spreads its trades were charged |
| Positions.ReportedFallsShortByCosts | src/alpha_gate/backtest.py:278-306 | so do the reported returns when no session was cut off |
| Positions.SpreadPaidWithin | src/alpha_gate/backtest.py:280-301 | the spreads paid lie between the smallest and the largest one on the whole turnover |
| Positions.SessionExposure | src/alpha_gate/backtest.py:265-276 | gross is the sum of |w|, a session is active if and only if some |w| reaches the threshold, the effective count times the sum of squares is gross squared, the largest weight bounds every |w| and is reached |
| Reports.EvaluationReports | src/alpha_gate/backtest.py:318-382 | a successful evaluation reports, field by field and from the portfolios its sandboxes answered and the market rows: every daily return, turnover, carry, the means of gross and cash, the fraction of active sessions, the means over exactly those, the largest weight and the number of active windows |
| Reports.ReportIsConserved | src/alpha_gate/backtest.py:318-358 | over a whole evaluation, what its windows earn is spot plus the reported carry, less fee / 10000 x the reported turnover and the spreads paid |
| Reports.ReportedSpreads | src/alpha_gate/backtest.py:318-358 | which lie between the smallest and the largest spread on that turnover |
| Accounting.NetIsConserved | src/alpha_gate/backtest.py:280-306 | before flooring, net returns add up to spot profit plus the reported carry contribution less all costs |
| Accounting.CostsFollowTurnover | src/alpha_gate/backtest.py:278-306 | all costs of a window lie between the flat fee and the fee plus largest spread used, on its turnover |
| Accounting.TurnoverAtLeast | src/alpha_gate/backtest.py:261-306 | turnover is at least twice the gross of any session, because of the forced liquidation |
| Accounting.TurnoverAtMost | src/alpha_gate/backtest.py:261-306 | turnover is at most twice the summed gross, hence 2 x window days x (max gross + 1e-12) for validated portfolios |
| Accounting.ExposureOfSession | src/alpha_gate/backtest.py:266-276 | on every session effective positions, largest weight and gross satisfy the Cauchy-Schwarz bounds, and are zero without exposure |
| Accounting.ExposureOfSummary | src/alpha_gate/backtest.py:369-375 | the averaged position count is 0 or between 1 and the symbol count, and cash fraction + mean(min(gross, 1)) = 1 |
| Accounting.CashComplementsExposure | src/alpha_gate/backtest.py:369 | the mean uninvested part and the mean capped gross add to one |
| Accounting.WindowsCover | src/alpha_gate/backtest.py:137-139 | every session of the horizon lies in some window |
| Accounting.WindowsAreDisjoint | src/alpha_gate/backtest.py:137-139 | and in one only, at one offset |
| Accounting.RequestShape | src/alpha_gate/backtest.py:182-209 | each request is valid, for the program, limits and symbols given and the seed plus the window, with warm-up + window days - 1 consecutive bars in range, the window's last session never among them |
| Accounting.FlattenedReturns | src/alpha_gate/backtest.py:323 | entry i x window days + j of the daily returns is session j of window i |
| NoLookAhead.CompletedMeetsContract | src/alpha_gate/backtest.py:242-254 | frames of a COMPLETED driver result always meet the scoring contract |
| NoLookAhead.ContractNeverViolated | src/alpha_gate/backtest.py:146-166 | with the protocol driver as executor no evaluation reports a contract violation, and it succeeds exactly when every window's sandbox completed |
| NoLookAhead.WeightsIgnoreTheFuture | src/alpha_gate/backtest.py:196-251 | two runs on markets that agree before a day hold the same portfolios on that day and all earlier ones |
| NoLookAhead.ReturnsIgnoreTheFuture | src/alpha_gate/backtest.py:265-306 | and earn the same on a day when the markets agree up to it |
| NoLookAhead.NoLookAheadInBacktest | src/alpha_gate/backtest.py:119-173 | so two whole evaluations on markets that agree before a day report the same daily returns for every session before it |
| NoLookAhead.EvaluationsAgreeBefore | src/alpha_gate/backtest.py:119-173 | and evaluations that fail agree too: windows whose bars all precede the day are reached by both or neither with equal sandbox results, every window both reach has the same outcomes for the bars before the day, and a failure in a window whose bars all precede it is a failure of both, with one error |
| Text.SpanSwap | src/alpha_gate/evolution/local.py:130-131 | replacing one unbroken span changes exactly the line that holds it, whatever line breaks the text uses |
| Text.LineThenReturn | src/alpha_gate/evolution/local.py:131 | a carriage return ends a line by itself, or together with a newline after it |
| Text.StripsBothEnds | src/alpha_gate/evolution/local.py:135 | stripping removes all blanks at both ends and nothing else |
| Text.DecimalSpells | src/alpha_gate/evolution/local.py:172-174 | str of an integer is decimal digits that spell it |
| Text.NoLeadingZero | src/alpha_gate/evolution/local.py:172-174 | with no zero in front unless it is zero |
| LocalEvolver.RewordingIsLocal | src/alpha_gate/evolution/local.py:112-119 | rewording one token changes the written source in exactly that span |
| LocalEvolver.SwapKeepsBlock | src/alpha_gate/evolution/local.py:129-144 | swapping one number for another never moves, adds or breaks a marker line |
| LocalEvolver.Replacements | src/alpha_gate/evolution/local.py:146-169 | strictly increasing, exactly the neighbours of the value that round to a finite float, never the value itself, and never empty for an integer |
| Mutations.EvolveBlockExactlyWhen | src/alpha_gate/evolution/local.py:129-144 | a source has the block (a, b) if and only if line a is its only start marker once stripped, line b its only end marker, and a comes first |
| Mutations.IntegerOffers | src/alpha_gate/evolution/local.py:148-154 | the values offered for n are exactly n - 1 (not below 0), n + 1, n div 2 and 2n, without n |
| Mutations.FloatOffers | src/alpha_gate/evolution/local.py:155-169 | those offered for x are exactly the finite roundings of x / 2, 4x / 5, 5x / 4, 2x, x - step and x + step, without x, the step being 0.05 below one in size and 1 from there |
| LocalEvolver.Evolver.FindMutable | src/alpha_gate/evolution/local.py:92-102 | the scan finds the block's mutable number tokens or the first one that cannot be read or converted |
| LocalEvolver.Evolver.Mutate | src/alpha_gate/evolution/local.py:85-127 | the mutation, the random draws it spends and whether it overflows |
| LocalEvolver.Evolver.SearchBatch | src/alpha_gate/evolution/local.py:57-77 | the rejection-sampling loop, attempt by attempt, until full, exhausted or overflowed |
| LocalEvolver.Evolver.Propose | src/alpha_gate/evolution/local.py:26-83 | the proposals or the error of the whole search |
| SearchTrace.SearchIsTraced | src/alpha_gate/evolution/local.py:52-83 | with the seeds in and a block in every parent, propose is a chain of attempts on the random stream of the request's seed: each draws one of the parents (seeds if there are none) and then the mutation, adds it if valid and new, and the chain stops when full, after 200 attempts per proposal, or at an overflow; the answer is what it found, exhaustion or the overflow |
| SearchTrace.AnyParentCanBreed | src/alpha_gate/evolution/local.py:59-77 | whatever valid and new mutant any one parent has under some draws, the next attempt adds under some others, naming that parent |
| SearchTrace.ProposeRefusesInOrder | src/alpha_gate/evolution/local.py:27-56 | batch size, then seeds, then the first new seed that fails validation while there is room, then a parent without a block: each is reported exactly then |
| EvolverProperties.SeedsComeFirst | src/alpha_gate/evolution/local.py:35-50 | a batch of generation 0 opens with the unmodified seeds in order, as many as fit, none skipped but those seen or repeated |
| EvolverProperties.MutationIsLocal | src/alpha_gate/evolution/local.py:106-127 | a mutant is the parent as untokenize writes it back with exactly one number, standing in the parent on a row strictly between the markers, replaced by a different one; so it differs from the parent itself in that number alone if and only if untokenize writes the parent back unchanged |
| Mutations.MutationWritesAnOffer | src/alpha_gate/evolution/local.py:106-127 | what is written reads back as one of the values offered for the number it replaces, an int for an int, a float for a float |
| Mutations.EveryOfferComesUp | src/alpha_gate/evolution/local.py:106-127 | any number of the block and any value offered for it come up under some draws, unless the source would outgrow its limit |
| Placement.TokensArePlaced | src/alpha_gate/evolution/local.py:119 | untokenize starts every token it writes at its recorded row and column, through continuations, indents and dedents, if the tokens are recorded as the lexer does |
| Placement.IndentedLineIsRecorded | src/alpha_gate/evolution/local.py:119 | as the tokens of a concrete indented line are |
| Placement.BlockIndentInForce | src/alpha_gate/evolution/local.py:119 | a line of a block is written with that block's own indent in front, whatever nested blocks were opened and closed since |
| EvolverProperties.MutationKeepsBlock | src/alpha_gate/evolution/local.py:119-144 | the mutant has its parent's evolve block lines if and only if writing the parent back keeps them, and a block at all if and only if that leaves one, whichever number is replaced |
| EvolverProperties.LeavesBlockExactlyWhen | src/alpha_gate/evolution/local.py:96-97 | some draw mutates a number outside the markers if and only if the parent can be written back and its tokens hold a rewritable number on a row between the markers whose line, as splitlines counts, is at or past the end marker |
| EvolverProperties.MutationIsInsideBlock | src/alpha_gate/evolution/local.py:85-144 | which no draw does in a source whose only line breaks are newlines |
| EvolverInstance.StrayMutates | src/alpha_gate/evolution/local.py:85-127 | a sound evolver, a concrete source and a draw that change the number after the end marker |
| EvolverProperties.OverflowExactlyWhen | src/alpha_gate/evolution/local.py:93-109 | some mutation attempt overflows if and only if an integer of the block doubles past the float range and no unreadable number keeps the scan from it |
| EvolverInstance.OverflowHappens | src/alpha_gate/evolution/local.py:93-109 | a concrete program, holding 600 where 1000 is the largest integer, that can overflow |
| EvolverInstance.InstanceIsSound | src/alpha_gate/evolution/local.py:85-127 | a lexer and number formats, floats included, that meet every assumption made of them |
| EvolverInstance.IntegerMutates | src/alpha_gate/evolution/local.py:85-127 | under them a program with an integer mutates |
| EvolverInstance.FloatMutates | src/alpha_gate/evolution/local.py:85-127 | and one with a float, however long it is spelled |
| EvolverInstance.TabMutates | src/alpha_gate/evolution/local.py:119 | a concrete source with a tab before a number: the block of its mutant is where it was, but no single number tells the two apart |
| EvolverInstance.LostBlockMutates | src/alpha_gate/evolution/local.py:119-144 | a concrete source with a form feed before its start marker, whose mutant has no evolve block |
| EvolverProperties.BatchIsFresh | src/alpha_gate/evolution/local.py:32-83 | a batch has exactly the size asked for, every program validated, hashes pairwise distinct and unseen, within 200 attempts per proposal; it gives up only after all of them |
| EvolverProperties.BatchKeepsBlocks | src/alpha_gate/evolution/local.py:52-77 | if every parent's block survives being written back, every proposal has a block |
| Ledger.MemoryLedger.Append | src/alpha_gate/ledger.py:97-102 | refuses a key it holds and changes nothing, else adds exactly that record and key |
| Ledger.JsonlLedger.LoadExisting | src/alpha_gate/ledger.py:120-136 | the keys of the records in the file, or the complaint about its first bad or repeated line; blank lines are skipped |
| Ledger.ParsedReads | src/alpha_gate/ledger.py:120-136 | a file reads as the decoded records of its lines that are not blank, in order and with distinct keys; otherwise the complaint numbers, from one, the first line that decodes to none or repeats a key |
| Ledger.JsonlLedger.HasExperiment | src/alpha_gate/ledger.py:115-118 | true exactly when some key has that experiment id |
| Ledger.JsonlLedger.Append | src/alpha_gate/ledger.py:138-147 | refuses a key it holds and writes nothing, else appends one line and adds the key |
| Ledger.ReopeningReadsBack | src/alpha_gate/ledger.py:120-147 | reading a file after any number of appends gives what was there followed by exactly the appended records |
| Ledger.Reopen | src/alpha_gate/ledger.py:108-136 | opening the file again rebuilds the same key set |
| Ranking.BeforeIsStrictTotalOrder | src/alpha_gate/experiment.py:97-102 | the ranking key is a strict total order |
| Ranking.RankedIsUnique | src/alpha_gate/experiment.py:92-104 | with distinct ids the ranking is the one strictly ordered permutation |
| Experiments.ExperimentRunner.EvaluateBatch | src/alpha_gate/experiment.py:137-191 | a batch is proposed, evaluated and rescored with everything before it, or the first check it fails is reported |
| Experiments.ExperimentRunner.AppendRecords | src/alpha_gate/experiment.py:193-201 | records are validated and appended one by one; the first refusal leaves exactly the ones before it |
| Experiments.ExperimentRunner.Run | src/alpha_gate/experiment.py:122-225 | result and ledger are those of the generation-by-generation account, on success and on every abort; earlier records are untouched |
| Rounds.RoundsAreAnswered | src/alpha_gate/experiment.py:136-191 | every round of every run asks for min(batch, budget left) proposals with the seed moved on by the generation, the latest parents and exactly the hashes of the trials so far; it gets on to its records if and only if proposals, evaluations and scores are as many as asked, in order and fully counted, which then extend the state; if not, the run ends there with the first fault and no further record |
| Rounds.RecordsCarryScores | src/alpha_gate/experiment.py:193-201 | every record of every run, finished or aborted, repeats its own trial, evaluation (windows, bytes and durations added up) and the score given in the generation it was proposed in |
| ExperimentProperties.IdOrder | src/alpha_gate/experiment.py:158-161 | in range, candidate ids sort as text by generation and then index, and differ when these do |
| ExperimentProperties.IdReads | src/alpha_gate/experiment.py:158-161 | an id spells the experiment, ":g" and four digits of the generation, ":t" and six of the index |
| ExperimentProperties.CountedThroughout | src/alpha_gate/experiment.py:136-203 | after g rounds of every run: min(budget, g x batch) trials, trial i in generation i div batch, its record carrying min(budget, (i div batch + 1) x batch) |
| ExperimentProperties.FinishedRunCounts | src/alpha_gate/experiment.py:205-225 | a finished run used min(budget, generations x batch) evaluations in the fewest generations, and stopped on the budget exactly when the generations could spend it |
| ExperimentProperties.AuditTrailThroughout | src/alpha_gate/experiment.py:193-201 | at every point of every run the records are this experiment's indices 0..k-1, once each in order, none held before; a duplicate is reported only if the ledger held the very next one |
| ExperimentProperties.FreshExperimentIsRecorded | src/alpha_gate/experiment.py:122-225 | a ledger without this experiment never refuses a record and ends up with exactly its indices 0..k-1, finished or aborted |
| ExperimentProperties.RankingIsDetermined | src/alpha_gate/experiment.py:92-104 | in every state reached the ranking is the unique sorted permutation, equal candidates in order of proposal |
| Selection.FinishedRunRanksBestFirst | src/alpha_gate/experiment.py:92-104 | the ranking of a finished run holds all its outcomes, a higher reward always first, on equal reward a higher passed, then a higher validity, then the one evaluated earlier |
| ExperimentProperties.ParentsLead | src/alpha_gate/experiment.py:227-250 | the parents are the first min(elite count, trials) programs of the ranking, so none left out ranks before one taken |
| Selection.ParentsAreTheBest | src/alpha_gate/experiment.py:227-250 | after every generation the parents are distinct trials so far, min(elite count, trials) of them, best first, with their own scores, and no trial left out has a higher reward than a parent, nor an equal one and a higher passed or validity, nor all equal and an earlier evaluation |
| LocalRun.SoundThroughout | src/alpha_gate/experiment.py:141-155 | with the local evolver, over a whole run, all trials were validated, have distinct hashes and are seeds or mutants of a seed or an earlier trial; if all seeds have their block, the trials without one are exactly the mutants of a program whose block does not survive being written back |
| LocalRun.MissingBlockExactlyWhen | src/alpha_gate/evolution/local.py:52-56 | a round of a run ends over a missing block if and only if one of the parents it starts from is such a mutant |
| LocalRun.OnlyTheseFailures | src/alpha_gate/evolution/local.py:52-81 | if every seed has a block, the evolver ends a run only by an invalid seed, an overflow, exhaustion or such a parent, never by a wrong batch size |
| LocalRun.ClassNeverMissesBlock | src/alpha_gate/evolution/local.py:55-56 | seeds with a block, of any class of sources that validated mutants stay in and whose blocks survive being written back: in no generation of any run does the parent check fail, and every trial has its block |
| LocalRun.NewlineSeedsNeverMissBlock | src/alpha_gate/evolution/local.py:55-144 | so it is for all seeds with one ordered block whose only line breaks are newlines, if newline-only sources are written back as they are, or at least as newline-only text with a block |
| LocalRun.SurvivingSeedsNeverMissBlock | src/alpha_gate/evolution/local.py:55-144 | and for all seeds, tabs and form feeds included, whose one ordered block survives being written back, if what was written for a mutant is written back unchanged |
| ConcreteRuns.LineageAssumptionsHold | src/alpha_gate/evolution/local.py:85-127 | an evolver that lexes its own mutants and meets all these assumptions |
| EvolverInstance.FamilyMutates | src/alpha_gate/evolution/local.py:85-127 | and under which every one of its programs with a number from 1 to 500 mutates to another of them |
| LocalRun.MutantIsRecordedExactlyWhen | src/alpha_gate/ledger.py:19-83 | a mutant's record passes its checks if and only if the two spellings of the number and the row's digits fit in 486 characters |
| ExperimentProperties.InvalidRecordEndsRun | src/alpha_gate/experiment.py:193-201 | the first record of a generation that fails its checks ends the run there, with exactly the records before it in the ledger |
| ConcreteRuns.LongDescriptionEndsRun | src/alpha_gate/experiment.py:193-201 | a concrete run of the local evolver that is proposed, evaluated and scored, and ends when its mutant's record is built |
| ConcreteRuns.LostBlockEndsRun | src/alpha_gate/evolution/local.py:55-56 | a concrete run of the local evolver, from a seed with a block, that records two candidates and ends in its second generation over a missing block |
| Evaluator.BacktestAll | src/alpha_gate/evaluator.py:31-43 | one evaluation per program, in order and closed; a bad horizon is raised before any sandbox call |
| Evaluator.PairedExactlyWhen | src/alpha_gate/experiment.py:168-191 | in every state of a run each trial has its own evaluation if and only if the evaluator answered every round in order |
| Evaluator.ScoresFollow | src/alpha_gate/experiment.py:179-187 | and then score i is of the same program, which the loop does check |
| ConcreteRuns.SwappedRunFinishes | src/alpha_gate/experiment.py:168-225 | a concrete run that finishes with every evaluation attached to the wrong trial |
| DurableRun.RunDurably | src/alpha_gate/cli.py:109-147 | a run on a ledger file refuses a repeated id, otherwise returns exactly the run's outcome, extends the file by exactly its records, never fails on a duplicate, and leaves a file that reads back |
| Summary.FromResult | src/alpha_gate/summary.py:125-183 | the summary is built exactly when every candidate and the whole pass their checks, else the first failing one is reported |
| Summary.FinishedRunSummarizedExactlyWhen | src/alpha_gate/summary.py:185-224 | a finished run passes every check if and only if each final score is in range and agrees with its own metrics; the candidates are a permutation of the outcomes and the launches those of all evaluations |
| SummaryProperties.FinishedRunIsSummarized | src/alpha_gate/summary.py:131-183 | the summary of a finished run describes every outcome once, field by field, best first and with all trials counted; its totals are how many outcomes have positive validity, how many passed, and the launches and seconds of them all |
| SummaryProperties.FirstFailedCheckIsReported | src/alpha_gate/summary.py:186-224 | any summary is accepted if and only if it passes the ten checks, totals as plain counts; otherwise the first one failed is reported |
| CloudRun.PausesAddUp | src/alpha_gate/executors/cloud_run.py:223-224 | doubling pauses add up to at most retry seconds x (2^pauses - 1) |
| CloudRun.Attempt | src/alpha_gate/executors/cloud_run.py:209-224 | one attempt makes at most one call, cut off at the deadline, and pauses only after a 429 with another attempt left: retry seconds x 2^attempt, or the time left when the clock was read |
| CloudRun.ExecuteSync | src/alpha_gate/executors/cloud_run.py:203-225 | at most retries + 1 calls, each after nothing but 429s and cut off exactly at the one deadline; pause k is the smaller of retry seconds x 2^k and the time then left; total sleep within both bounds; the final assertion is never reached |
| CloudRun.Execute | src/alpha_gate/executors/cloud_run.py:152-194 | no result exactly when the last call raised an exception that is not caught; every result carries the requested program's hash; success exactly for a decoded, successful body of the last call with that hash, other bodies and failures being unavailable or a protocol error |
| SeedStrategy.Strategy.OnBar | examples/seed_strategy.py:14-35 | the windows advance by one bar and the answer is zeros, the portfolio of the windows, or the exception |
| SeedStrategy.WindowIsRecent | examples/seed_strategy.py:16-19 | after any bars each window is its symbol's latest closes, at most twenty |
| SeedStrategy.PortfolioByRank | examples/seed_strategy.py:24-35 | the lowest-ranked symbols are sold, the highest bought, all others not held |
| SeedStrategy.BarIsDecided | examples/seed_strategy.py:21-35 | nothing is held before every symbol has twenty closes; then a window that starts at zero raises, and any other is answered |
| SeedStrategy.LengthErrorReads | examples/seed_strategy.py:17 | a bar with too few or too many closes raises what zip says of its second argument |
| SeedStrategy.PortfolioByCloses | examples/seed_strategy.py:24-35 | over the closes: weights are 0.25, 0 or -0.25 and cancel, gross is 0.5 below four symbols and 1 from there, and of two symbols the one with the larger weight has the larger newest / oldest close, or an equal one and the later name |
| SeedStrategy.HoldsByMomentum | examples/seed_strategy.py:14-35 | on bar k of a run it holds nothing before twenty bars are in and then such a book over the closes of bars k and k - 19 |
| SeedStrategy.PortfolioIsNeutral | examples/seed_strategy.py:29-35 | the weights cancel and gross is half the positions per side |
| SeedStrategy.NeutralExactlyWhen | examples/seed_strategy.py:29-34 | the book is neutral if and only if there is not exactly one symbol |
| SeedStrategy.MomentumCompletesExactlyWhen | examples/seed_strategy.py:5-35 | in the sandbox the bundled strategy completes if and only if it is in time, exits cleanly, its output fits the budget and, from twenty bars on, the limits leave room for its book; its frames are then known bar by bar |

## Left out

- Process spawning, pipes, asyncio scheduling, stopping the process, containers and cloud sandboxes: operating-system plumbing, represented by the environment of a run.
- `_jwt_expiry`, the identity-token cache, HTTP and the broker service: network code with little state; only the retry loop and the handling of its outcome are modelled. The executor's "mismatched hash" and "unavailable" texts are one error value.
- The gate-runner scoring library (deflated Sharpe, overfitting probability, tail scores) is not part of this model; the scorer is any function, of which only what src/alpha_gate/experiment.py:177-191 checks is used.
- Standard deviations, medians, Sharpe ratios and the reference window risk of a summary.
- `CandidateValidator`, Python's lexer and parser, pydantic parsing and JSON text.
- Experiments.ExperimentRunner.Run: rewards, validity and metrics are real numbers, so scores that are NaN, which make a record invalid and a ranking meaningless, are not represented.
- Ledger.JsonlLedger.Append: appending is atomic and every line ends in its newline, so a file cut off in the middle of a line is not represented.
- Backtest.Backtester.ScoreSessions: the daily returns are an array updated in place; the exposure series are sequences updated by index, and each market row is one record rather than a row of six matrices.
- CloudRun.ExecuteSync: the wait between reading the clock and the start of a call is not separated from the call itself.
- Summary: the evaluation protocol block, schema versions and commit identifiers are passed through unchanged by the source and omitted; writing the file once is omitted.
- The command line (beyond the ledger checks around a run), reports, container files and repository scripts.
