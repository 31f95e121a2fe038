# Verified model of the strategy search engine

This project models the self-learning trading search engine in Dafny and proves properties of
that model. It covers the engine's decision-making core: the generational search and its
bookkeeping, the backtest and labeler that feed it, the operators that breed genomes, the numeric
machinery its verdicts rest on, the daily monitor, the point-in-time store, and the choice of the
acting threshold.

## How the model is laid out

| part | modules |
|---|---|
| search run | `Generation` (one generation's genomes), `Strategies` (the table), `Evolve` (the run), `RunSafety` and `RunInvariant` (what every run keeps), `RunFirewall` (end to end with the reserved era), `WindowOrder` (the order windows come in), `RunRecord` (what is scored, logged and left in the rows), `Filling` (what a generation must hold), `Leaderboard` (the final ranking) |
| evaluation | `Cooldown`, `Backtest`, `Labeler`, `Barriers` (a label told by traded prices), `Firewall`, `Aftermath` (the reserved era and what follows it), `Training` (what a training row says), `Trades` |
| breeding | `Bits` and `Rng` (the generator), `Streams` (how its streams relate), `Catalog`, `Drawing`, `GenomeOps`, `Seeding`, `RiskSearch`; `Draws`, `Offspring`, `Sowing` and `Geometry` (what each draws, word by word) |
| scoring | `Score` (Wilson bound, promotion, live floor), `Grading` (the same without the root), `Strings`, `Display` and `Signature` (the canonical genome signature) |
| numbers | `Indicators`, `Momentum`, `Wilder` (its averages in closed form), `Detectors`, `Verdicts` (when they fire, in sums) |
| operations | `Monitor`, `DayBook` (its log), `Tables` and `Pit` (the bitemporal store), `Readback` (what goes in comes out), `ActThreshold`, `Acting` (what it counts) |
| shared | `Prelude`, `Arith`, `Sorting`, `Market`, `Genomes`, `Risk` |

Code that changes state step by step is a method or a class (`Generator`, `Store`, `Database`,
`Desk`, `TradeStats`) whose contract ties the new state to a function of the old one; the
theorems are about those functions. Random draws thread the generator's state explicitly, so
"for every generator state" below means for every random stream. Numbers are exact reals; a
square root is a non-negative witness whose square is the radicand. The regime classifier, the
column renaming, the worker's score, the candidate grid and the square root are arbitrary
functions or values: every theorem holds whatever they are.

`dafny verify dfyconfig.toml` checks the whole project.

## Where the code and its intent part

Each of these is a theorem in the project.

* The live precision floor reads the acted count back from a 32-bit column. A promotable score is
  never refused while the count is below 2^31, and `Score.LiveFloorRefusesIff` says exactly when
  it is refused above that.
* The signature tells genomes apart when feature keys avoid `&`, and also when they avoid `|`, but
  not when they may hold both (`Signature.SignatureCanonical`, `Signature.AvoidingEitherDecides`);
  then every two-condition genome collides with a one-condition genome
  (`Signature.DelimiterKeysCollide`).
* The layer-restricted bulk feature read returns an older version of a key whose newest version
  changed layer (`Pit.LayerReadAgreesIff`, with an instance in `Pit.LayerReadCanBeStale`).
* A strategy that drawdown disables is left demoted rather than retired when decay fires the same
  day (`Monitor.DecayOverridesDisable`), as after fifteen full losses
  (`Monitor.DisabledThenDemoted`).
* Calibration is documented to pair each conviction with its own trade's outcome, but the
  convictions include open trades' and the outcomes do not. The pairing holds exactly when no open
  trade precedes a closed one (`Monitor.CalibrationPairsIff`); the query lists the newest first, so
  an open trade shifts it (`Monitor.OpenTradeMispairs`).
* The relative strength index mirrors under negated closes unless both final averages are zero
  (`Momentum.RsiMirror`); two equal closes read a hundred both ways up
  (`Momentum.RsiMirrorCanFail`).
* The tally's profit factor is unbounded where the journal's is zero, on records with no movement
  (`Trades.ProfitFactorsAgreeIff`), such as one scratch trade (`Trades.ProfitFactorsCanDiffer`).
* The test-era firewall purges training rows, but the feature catalog is built over all points,
  the reserved era's included. Over windows that differ only inside the era and resume late after
  it, a run is free of the era whenever its catalog is (`RunFirewall.RunIgnoresReservedEra`); the
  catalog is unmoved exactly when every feature is seen alike (`RunFirewall.CatalogUnmovedIff`),
  and it can move (`RunFirewall.CatalogSeesReservedEra`).
* The firewall purges rows, not entries: an entry made inside the era can hold back the first
  points past it, so what a window keeps can change with what the era holds
  (`Aftermath.LaterRowsCanDiffer`), exactly when some point there is in the cooldown of one
  window's last entry and not of the other's (`Aftermath.KeptRowsSameIff`).
* The search is meant to be reproducible from its seed, but windows are loaded concurrently and kept
  in the order they arrive. The catalog ignores that order (`WindowOrder.CatalogIgnoresOrder`); a
  genome's dataset ignores it exactly when no two windows keep different rows at one time
  (`WindowOrder.OrderIrrelevantIff`), and it can matter (`WindowOrder.OrderCanMatter`).
* A mutant is documented to have at most four conditions. All mutants of a genome do exactly when
  the genome does (`GenomeOps.MutantsWithinFourIff`), and seeds follow the configured number
  instead (`Seeding.SeededIsValid`).
* The final leaderboard is documented to keep one entry a strategy. The sort keeps them all: a strategy
  stands in it as often as it was evaluated (`Leaderboard.StandsTwiceIff`), and every strategy carried
  into a further generation stands in it twice (`Leaderboard.CarriedStandsTwice`).
* Each generation is documented to draw an independent stream. All streams are one cycle entered at
  different places (`Streams.OneCycle`): the next base seed gives the same words less the first
  (`Streams.NextSeedIsNextWord`), and the next generation moves on by a number of draws that depends
  on nothing (`Streams.NextGenerationIsShifted`).
* The calendar boundary is documented as the lower of two medians and is the upper one, with at most
  half the rows before it (`Acting.BoundaryIsMedian`); that is what makes it the row midpoint on
  increasing timestamps (`ActThreshold.CalendarSplit`).
* The survivor rule keeps gate passers by an arm of its own, which on a gate taken on the same numbers
  adds nothing (`Score.GateAddsNothing`).
* An operator stop of zero is accepted, and with risk locked to it no genome of the search can be
  labeled at all (`RunInvariant.UnlabelableIff`).

## Model

| member | source | states |
|---|---|---|
| `RunInvariant.RunKeepsInvariant` | crates/se-search/src/population.rs:340-417 | after every number of generations of every configuration the run invariant holds: ids and signatures correspond one to one through the rows, the id map's keys are the signatures seen, the latest evaluations are distinct and at most `per_gen`, each of their rows carries the status the survivor rule decided, and no other row of the run is promoted |
| `RunInvariant.GenerateKeeps` | crates/se-search/src/population.rs:347-407 | one generation, from any state satisfying the invariant, re-establishes it |
| `RunInvariant.PromotedExactly` | crates/se-search/src/population.rs:575-592 | after each generation a row the run created is promoted exactly when it belongs to a promotable member of that generation; a row from before the run is untouched |
| `RunInvariant.RetiredIsFinal` | crates/se-search/src/population.rs:575-592 | a row the run retired is identical after every later generation and no later evaluation bears its id |
| `RunInvariant.ExtinctRowFrozen` | crates/se-search/src/population.rs:437-571 | a row whose signature no survivor carries is neither evaluated nor changed by the next generation (so unscored candidates are frozen too) |
| `RunInvariant.OneRowPerSignature` | crates/se-search/src/population.rs:360-393 | two ids minted by the run name the same row exactly when the rows' genomes have the same signature; every such signature is in the seen set, which equals the id map's keys |
| `RunInvariant.OnlySurvivorsRepeat` | crates/se-search/src/population.rs:437-571 | the next generation evaluates every survivor, first and in order; any other genome has a signature never seen in the run; none repeats within the generation; at most `per_gen` are evaluated |
| `RunInvariant.TrialsCountDistinct` | crates/se-search/src/population.rs:394-399 | the trial count recorded with each evaluation is, as a 32-bit word, the number of distinct signatures evaluated so far including this one; the number never falls and, below 2^32, neither does the word |
| `RunInvariant.EveryGenomeIsFit` | crates/se-search/src/population.rs:483-551 | every genome of every generation is valid over the catalog (one condition up to four, or up to the configured number if that is larger), of the configured horizon, and on exactly the operator's risk model when risk is locked, on one with a positive stop when it is not, whatever the operator's stop |
| `RunInvariant.UnlabelableIff` | crates/se-search/src/backtest.rs:38-107 | at a positive price a point a genome of a run fires on in a tradeable regime is unlabelable exactly when volatility is missing or not positive, no bar follows, or risk is locked to a stop of magnitude zero; a negative stop is labeled like a positive one |
| `RunInvariant.EvaluatedAgain` | crates/se-search/src/population.rs:477-481 | a member that is promotable or survives is evaluated again in the next generation, so its row is decided afresh |
| `RunInvariant.RowsAfterDecide` | crates/se-search/src/population.rs:575-592 | the survivor rule's row updates leave each evaluated candidate with its decided status and every other row alone |
| `RunInvariant.SurvivorsAreGood` | crates/se-search/src/population.rs:575-592 | survivors come only from members that are promotable or survive, keep the generation's distinctness, and are no more than were evaluated |
| `RunInvariant.CarriedIsKept` | crates/se-search/src/population.rs:575-592 | every member that is promotable or survives is among the survivors |
| `Evolve.RunSearch` | crates/se-search/src/population.rs:340-417 | the imperative run leaves the strategies table, the evaluations and the score log, which it only extends, exactly as the run function `RunOf` says; an empty catalog is refused and nothing is written |
| `Evolve.NewManager` | crates/se-search/src/population.rs:177-208 | whatever order the windows arrive in, a search drops those without decision bars and takes the catalog of the rest, which is valid |
| `Evolve.EvaluateAll` | crates/se-search/src/population.rs:371-403 | evaluating a generation reuses the id of a known signature, mints one otherwise, and writes the rows and scores the step function says |
| `Evolve.EvaluateGenome` | crates/se-search/src/population.rs:271-313 | a dataset under forty rows is not scored; otherwise the worker's answer for that dataset and trial count is recorded |
| `Evolve.Persist` | crates/se-search/src/population.rs:316-335 | persisting resets the row to candidate and appends the score row when there is one |
| `Evolve.SelectSurvivors` | crates/se-search/src/population.rs:575-592 | the loop's row updates and survivor list are those of the survivor rule |
| `Evolve.SameRun` | crates/se-search/src/population.rs:340-417 | a run sees its windows only through its catalog and the dataset each genome gets: searches alike in those are the same run |
| `RunRecord.EachScored` | crates/se-search/src/population.rs:271-313 | every evaluation of every run was made on its genome's own dataset and counted its rows: below forty it has no score, otherwise the worker's answer for exactly that genome, those rows, its generation, and the number of distinct signatures evaluated by then, itself included, as a 32-bit word of at least one |
| `RunRecord.RunLogs` | crates/se-search/src/persist.rs:53-89 | the score log of a run is exactly the answers it was given, each under its strategy's id, in order |
| `RunRecord.LatestRows` | crates/se-search/src/population.rs:575-592 | after each generation the row of each genome it evaluated holds that genome, that generation, and promoted, candidate or retired as its score earns, the survivor rule spelled out in numbers |
| `Leaderboard.RunRanked` | crates/se-search/src/population.rs:340-415 | a finished search returns its evaluations in the order of the final ranking |
| `Leaderboard.StandingsBestFirst` | crates/se-search/src/score.rs:162-179 | the final ranking lists every evaluation once and best first: scored before unscored, gate passers first, then higher expectancy, higher deflated Sharpe ratio, lower overfit probability |
| `Leaderboard.StandingsStable` | crates/se-search/src/population.rs:406-411 | evaluations neither of which ranks above the other keep the order they were made in |
| `Leaderboard.ListedAreBest` | crates/se-search/src/population.rs:664-670 | a leaderboard of n holds scored members only, n of them or all there are, and nothing it leaves out is better than anything it lists |
| `Leaderboard.BestScoresAre` | crates/se-search/src/population.rs:678-686 | the score kept for a strategy is one it was given, and none it was given is better |
| `Leaderboard.StandsTwiceIff` | crates/se-search/src/population.rs:405-411 | the final sort removes no repetition: a strategy stands in the ranking more than once exactly when it was evaluated more than once |
| `Leaderboard.CarriedStandsTwice` | crates/se-search/src/population.rs:340-415 | every strategy a search carries into a further generation stands in its ranking at least twice |
| `RunSafety.StepIdentified` | crates/se-search/src/population.rs:372-402 | evaluating and persisting one genome keeps the one-to-one correspondence of ids, signatures and rows, and every earlier row |
| `RunSafety.StepRecorded` | crates/se-search/src/population.rs:394-399 | each evaluation bears its signature's id and the count of distinct signatures at that moment |
| `RunSafety.StepsReset` | crates/se-search/src/population.rs:400-402 | after a generation is evaluated each of its rows is a fresh candidate of that generation and all other rows are as they were |
| `Strategies.Store.UpsertStrategy` | crates/se-search/src/persist.rs:15-37 | an upsert overwrites the whole row, its status included |
| `Strategies.Store.UpdateStatus` | crates/se-search/src/persist.rs:40-50 | a status update changes only that row's status, and nothing when the id has no row |
| `Strategies.Store.InsertScore` | crates/se-search/src/persist.rs:53-89 | a score is appended; no strategy row changes |
| `Generation.NextGeneration` | crates/se-search/src/population.rs:437-571 | the loops compute the generation the function `Next` draws from the same generator state (what that holds is `Filling.AssembledIsFull`), leave the generator where it says, and extend the seen set by exactly the kept signatures |
| `Generation.NextIsGood` | crates/se-search/src/population.rs:437-571 | when survivors fit in `per_gen`, all are carried first and truncation drops none; the rest have signatures unseen in earlier generations; signatures are distinct, for every plan and generator state |
| `Generation.NextIsFit` | crates/se-search/src/population.rs:437-571 | from fit survivors over a valid catalog every genome of the next generation is fit |
| `Generation.AssembledIsGood` | crates/se-search/src/population.rs:448-551 | the whole candidate pool, before truncation, starts with the survivors and repeats no signature, for every plan and generator state |
| `Generation.AdmitUnique` | crates/se-search/src/population.rs:640-651 | a genome is admitted exactly when its signature is unseen, and then it and its signature are added |
| `Generation.BreedSurvivors` | crates/se-search/src/population.rs:486-514 | one mutant per survivor and then neighbouring crosses are offered until `per_gen` is reached |
| `Generation.Intensify` | crates/se-search/src/population.rs:516-534 | extra mutants are offered up to the mutation target within the attempt guard |
| `Generation.Diversify` | crates/se-search/src/population.rs:536-559 | fresh seeds fill the pool up to its target, as `Filling.SeedsOffered` says of the function |
| `Filling.AssembledIsFull` | crates/se-search/src/population.rs:483-559 | each stage of a generation met its target or offered all it had: below `per_gen` a mutant of every survivor and a cross of every neighbouring pair, below the mutation target every attempt's mutant, below the pool's target every seed of a population twice as large as what was missing; everything offered is in the pool or has a signature seen before, and the survivors head the pool |
| `Filling.MutantsOffered` | crates/se-search/src/population.rs:486-497 | below `per_gen` every survivor's mutant, under the draws it was made with, is in the pool or its signature was seen before |
| `Filling.ChildrenOffered` | crates/se-search/src/population.rs:498-514 | so is the cross of every pair of neighbouring survivors |
| `Filling.AttemptsOffered` | crates/se-search/src/population.rs:516-534 | so is, below the mutation target, the mutant of every further attempt |
| `Filling.SeedsOffered` | crates/se-search/src/population.rs:536-559 | so is, below the pool's target, every fresh seed with its assigned geometry |
| `Filling.PoolTargetIs` | crates/se-search/src/population.rs:454-458 | the pool's target is the least whole number no less than `per_gen` and no less than `per_gen` times the configured multiple |
| `Filling.MutationBudgetIs` | crates/se-search/src/population.rs:511-530 | mutants fill half of the surplus, rounded down, and are attempted four times the pool's target and at least eight times |
| `Filling.SeededNotEmpty` | crates/se-search/src/seed.rs:470-513 | over a valid catalog that is not empty a seeded population of positive size has a member, for every generator state |
| `Filling.FirstGenerationNotEmpty` | crates/se-search/src/population.rs:437-571 | with no survivors and nothing seen, a generation over such a catalog with room for one genome is not empty |
| `Filling.RunEvaluates` | crates/se-search/src/population.rs:340-417 | every search of at least one generation over such a catalog with room for one genome evaluates somebody |
| `Geometry.MutantGeometry` | crates/se-search/src/population.rs:486-497 | a mutant is its parent's mutation; with risk unlocked its geometry is its parent's remade in one respect from the words that follow, with risk locked the parent's |
| `Geometry.ChildGeometry` | crates/se-search/src/population.rs:498-514 | a cross carries the operator's geometry when risk is locked, and otherwise takes stop, first and second target each from one parent by the upper half of a word of its own |
| `Geometry.SeedGeometry` | crates/se-search/src/risk_search.rs:159-165 | a seed's geometry is the operator's, with no draw, when risk is locked; otherwise a sample: the operator's kind of stop refreshed and two targets in multiples of risk |
| `Generation.AssignSeedRisk` | crates/se-search/src/population.rs:212-215 | a seed's geometry is the operator's when locked, a sample otherwise |
| `RunFirewall.RunIgnoresReservedEra` | crates/se-search/src/population.rs:340-417 | two searches, each over the catalog of its own windows, whose windows differ only inside the era and resume their decision points more than a cooldown after its last bar, are the same run (genomes, scores, ids and statuses after every generation) while every feature is seen alike: it qualifies for both catalogs or for neither and, where it does, with the same multiset of observations |
| `RunFirewall.CatalogUnmovedIff` | crates/se-search/src/population.rs:177-208 | for two such searches the catalogs are equal exactly when every feature is seen alike |
| `RunFirewall.CatalogSeesReservedEra` | crates/se-search/src/seed.rs:56-90 | the condition can fail: two windows that differ only inside the era have two different catalogs, one empty, so that the search is refused, and one not |
| `WindowOrder.CatalogIgnoresOrder` | crates/se-search/src/seed.rs:56-90 | the catalog does not depend on the order the windows come in |
| `WindowOrder.DatasetPermutes` | crates/se-search/src/population.rs:235-255 | reordering the windows gives each genome the same rows, again sorted by time |
| `WindowOrder.DatasetSameIff` | crates/se-search/src/population.rs:235-255 | two universes give a genome the same dataset exactly when at every time they collect the same rows in the same order |
| `WindowOrder.OrderIrrelevantIff` | crates/se-search/src/population.rs:186-197 | the order of the windows leaves a genome's dataset alone exactly when no two windows keep different rows at one time |
| `WindowOrder.RunIgnoresWindowOrder` | crates/se-search/src/population.rs:340-417 | without such ties, for every genome, the whole run and its catalog ignore the order of the windows |
| `WindowOrder.ApartIsTieFree` | crates/se-search/src/population.rs:235-255 | windows whose decision points stand at different times leave no tie to any genome |
| `WindowOrder.OrderCanMatter` | crates/se-search/src/population.rs:186-197 | two windows with bars at the same times give a genome different datasets in different orders |
| `Aftermath.LaterRowsSameIff` | crates/se-search/src/population.rs:607-630 | windows alike past the era and free to differ up to its end keep the same rows past it exactly when no point there that the genome would enter lies in the cooldown of the last entry made up to the era's end in one window and not in the other |
| `Aftermath.KeptRowIsClear` | crates/se-search/src/population.rs:607-630 | each row the firewall keeps was decided before the era or starts past it |
| `Aftermath.KeptRowsSameIff` | crates/se-search/src/population.rs:607-630 | windows that differ only inside the era keep exactly the same rows if and only if no point past it is contested in that sense |
| `Aftermath.LateIsUncontested` | crates/se-search/src/backtest.rs:56-106 | when the points past the era come more than the cooldown after its last bar, none is contested, for any genome |
| `Aftermath.DatasetScreened` | crates/se-search/src/population.rs:225-263 | universes of such windows give every genome the same dataset, the rows past the era included |
| `Aftermath.ClosingDiffersInside` | crates/se-search/src/population.rs:607-630 | windows that close inside the era and share what comes before it are such windows |
| `Aftermath.LaterRowsCanDiffer` | crates/se-search/src/population.rs:607-630 | the condition can fail: two windows with the same prices, which differ only in a point inside the era, keep different rows past it |
| `Firewall.DatasetNonInterference` | crates/se-search/src/population.rs:235-255 | for any universe of windows that agree before the era, the training rows decided before the era are the same rows with the same labels in the same order |
| `Firewall.WindowNonInterference` | crates/se-search/src/population.rs:607-630 | the same for one window, across the cooldown walk, the labeler and the purge |
| `Firewall.PurgedIffSpanMeetsEra` | crates/se-search/src/population.rs:618-629 | a row is purged exactly when some instant of the era lies in its holding span |
| `Firewall.DatasetKeepsOnly` | crates/se-search/src/population.rs:227-255 | no row of the assembled dataset overlaps the era |
| `Firewall.FirewallTestEra` | crates/se-search/src/population.rs:607-630 | the loop keeps exactly the rows that do not overlap the era, in order, and counts the rest |
| `Firewall.BuildDataset` | crates/se-search/src/population.rs:235-255 | the dataset is every window's kept rows stably sorted by entry time, sorted, and clear of the era; what each row says is `Training.DatasetRowsIff` |
| `Training.DatasetRowsIff` | crates/se-search/src/population.rs:235-255 | the training set holds exactly these rows: for a point some window's backtest enters, the entry and end times and return of the point's label, the regime the classifier names there and the columns of its features, unless the span meets the era |
| `Training.EnteredIff` | crates/se-search/src/backtest.rs:56-106 | a backtest enters exactly the points that come to an entry and that no earlier entry has in its cooldown of max(1, min_hold_bars) bars |
| `Training.SkipsAre` | crates/se-search/src/backtest.rs:66-100 | its skip counters are the numbers of points outside every cooldown skipped for their regime and for want of a label |
| `Training.AssembledTell` | crates/se-labeler/src/assemble.rs:32-37 | a window's rows are those of the points its backtest enters, one each and in order, each with its label's times and return, its regime and its columns |
| `Training.TellsOne` | crates/se-labeler/src/assemble.rs:32-37 | a point makes only one row |
| `Training.VerdictIff` | crates/se-search/src/backtest.rs:66-100 | outside a cooldown a point is silent unless the genome has a condition and every condition holds there, is otherwise skipped for its regime unless that is tradeable, and is otherwise entered exactly when a bar follows and it has a label |
| `Backtest.RunBacktest` | crates/se-search/src/backtest.rs:38-107 | the loop's entries and both skip counters are those of the cooldown walk over the window's points |
| `Backtest.VisitPoint` | crates/se-search/src/backtest.rs:66-100 | a point outside a cooldown comes to nothing, a regime skip, an unlabelable skip or an entry by the source's order of tests |
| `Backtest.TakenInOrder` | crates/se-search/src/backtest.rs:56-106 | two entries of a backtest are more than max(1, min_hold_bars) bars apart |
| `Backtest.RowExit` | crates/se-core/src/horizon.rs:131-133 | a row's label ends at a bar no more than `purge_bars` after its entry |
| `Backtest.AssembleKeepsOrder` | crates/se-search/src/backtest.rs:147-151 | sorting the assembled rows leaves them in the walk's order |
| `Cooldown.GreedyIsOptimal` | crates/se-search/src/backtest.rs:56-106 | no spacing-respecting choice of eligible points is larger than the one the greedy walk takes, which is itself such a choice |
| `Cooldown.GreedyStaysAhead` | crates/se-search/src/backtest.rs:56-106 | the walk's m-th entry comes no later than the m-th entry of any rival choice |
| `Cooldown.WalkCovers` | crates/se-search/src/backtest.rs:58-65 | every eligible point is taken or lies in the cooldown of a taken one |
| `Cooldown.EveryPointCounted` | crates/se-search/src/backtest.rs:56-106 | every point is accounted for by exactly one outcome |
| `Cooldown.SpacedAt` | crates/se-search/src/backtest.rs:58-65 | entries of a spaced walk are pairwise more than the gap apart |
| `Cooldown.TakenIff` | crates/se-search/src/backtest.rs:56-106 | a walk enters exactly the eligible points no earlier entry cools |
| `Cooldown.CountersAre` | crates/se-search/src/backtest.rs:56-106 | each counter of a walk is the number of points it stands for, those in a cooldown apart |
| `Cooldown.WalkResumes` | crates/se-search/src/backtest.rs:56-106 | the walk past a point is determined by the entries made before it and the points past it |
| `Cooldown.ResumeSameIff` | crates/se-search/src/backtest.rs:56-106 | walks over points alike from some point on make the same entries there exactly when no eligible point is in the cooldown brought along by one walk and not by the other |
| `Labeler.LabelOneWithRisk` | crates/se-labeler/src/triple_barrier.rs:179-254 | the loop returns the label function's result, which satisfies the declarative reading, or the first failing check's error |
| `Labeler.LabelMeetsSpec` | crates/se-labeler/src/triple_barrier.rs:179-254 | the label is the earliest bar in the holding range touching either barrier, the stop winning ties, else the time exit, with the matching price levels and return |
| `Labeler.SpecDeterminesLabel` | crates/se-labeler/src/triple_barrier.rs:179-254 | the declarative reading has only one solution: anything satisfying it is the label |
| `Labeler.FirstTouchIsFirst` | crates/se-labeler/src/triple_barrier.rs:129-150 | the first touch found is in range, resolved stop-first, and no earlier bar touches a barrier |
| `Labeler.ReturnWithinBarriers` | crates/se-labeler/src/triple_barrier.rs:179-254 | with consistent quotes the return lies between minus one and the target's multiple of risk |
| `Labeler.ReflectionSwapsSides` | crates/se-labeler/src/triple_barrier.rs:179-254 | reflecting all prices about the entry close swaps long and short with the same outcome, end and return, and mirrored levels |
| `Labeler.LabelLocal` | crates/se-labeler/src/triple_barrier.rs:179-254 | a label that ends before bar k depends only on bars before k |
| `Labeler.LabelForward` | crates/se-labeler/src/triple_barrier.rs:179-254 | a label depends only on the bars from its entry on |
| `Labeler.LegacyLabels` | crates/se-labeler/src/triple_barrier.rs:158-172 | the profile-driven path reports a non-positive stop exactly for profiles without a positive stop multiple, and labels a touched target with the profile's target-to-stop ratio at any price and volatility |
| `Barriers.LabelHappened` | crates/se-labeler/src/triple_barrier.rs:129-254 | on consistent bars, told by the prices each bar traded at: until its end every bar traded strictly between the barriers; it ends where one traded at the stop or worse, or at the target or better and not at the stop, or at the last bar it may be held to and the record has; its return in units of the stop's distance is the gain at the exit price |
| `Barriers.ErrorIs` | crates/se-labeler/src/triple_barrier.rs:179-205 | exactly when labeling fails, and with which error |
| `Barriers.StopStands` | crates/se-core/src/risk.rs:54-61 | a stop stands its multiple of the average range, its dollars or its percentage of the entry away |
| `Barriers.TargetStands` | crates/se-core/src/risk.rs:119-143 | a target likewise, or its multiple of the stop's distance |
| `Risk.PositiveStopDistance` | crates/se-core/src/risk.rs:54-61 | at positive entry and volatility the risk distance is positive exactly when the stop's magnitude, of either sign, is not zero |
| `Risk.RMultipleIsVolatilityFree` | crates/se-core/src/risk.rs:119-143 | an R-multiple target is worth the same number of R at any price and volatility |
| `Sowing.NewGenomeLabelsAsProfile` | crates/se-labeler/src/triple_barrier.rs:152-172 | a new genome carries its horizon's own geometry: over the profile's holding period it is labeled exactly as the profile-driven path labels |
| `Risk.LegacySecondTarget` | crates/se-core/src/risk.rs:203-242 | on a profile's own geometry the second target lies 1.6 times as far out as the first, on the same side |
| `Trades.ExitPriceInvertsReturn` | crates/se-cli/src/trades.rs:40-54 | the reconstructed exit price's signed move over the entry-stop distance is exactly the label's return; a time exit comes back at the exit close |
| `GenomeOps.Mutate` | crates/se-search/src/genome_ops.rs:99-233 | the imperative mutation equals the function `Mutated` on the generator state and leaves the generator where it says |
| `GenomeOps.Operate` | crates/se-search/src/genome_ops.rs:108-227 | each roll runs its operator with the source's draws in the source's order |
| `GenomeOps.PerturbThreshold` | crates/se-search/src/genome_ops.rs:35-48 | the imperative nudge equals the function `Perturbed` on the generator state |
| `GenomeOps.NudgeStaysNear` | crates/se-search/src/genome_ops.rs:35-53 | for every generator state a nudged threshold is an observed quantile no further than half the span from its current rank |
| `GenomeOps.MutantIsValid` | crates/se-search/src/genome_ops.rs:87-233 | for every generator state a mutant of a valid genome is valid (at least one condition and no more than four or its parent's bound, distinct keys, each key in the catalog with its stat's layer and an observed threshold) and keeps side, horizon and risk |
| `GenomeOps.MutantsWithinFourIff` | crates/se-search/src/genome_ops.rs:95-233 | for every catalog and generator state the mutants of a genome have at most four conditions, if and only if the genome does |
| `GenomeOps.OperatorEffect` | crates/se-search/src/genome_ops.rs:108-227 | what each roll may change: one threshold, one flipped operator, one replaced condition, one appended, one removed, one appended of a layer the genome lacked, one replaced by a condition of another layer |
| `GenomeOps.Crossover` | crates/se-search/src/genome_ops.rs:240-267 | the imperative crossover equals the function `Crossed` on the generator state, whose meaning is `Offspring.CrossIs` |
| `GenomeOps.CrossIsValid` | crates/se-search/src/genome_ops.rs:240-267 | crossing two valid genomes gives a valid genome, with no more conditions than four or the parents' bound, and the first parent's side and horizon |
| `Offspring.CrossIs` | crates/se-search/src/genome_ops.rs:240-267 | a cross of parents whose conditions are over distinct features is a drawn prefix of the first parent, of at least one condition, followed by the second parent's conditions over features the prefix lacks, in order, up to four in all, on the first parent's side and horizon |
| `Offspring.CrossMisses` | crates/se-search/src/genome_ops.rs:255-262 | every condition of the second parent over a feature the prefix lacks is in the child unless the child already has four |
| `Offspring.MutantDoes` | crates/se-search/src/genome_ops.rs:99-233 | what each roll of eight does, exactly: which condition, which observed value nearest to which rank, which opposite operator, which drawn condition appended, put in place or refused, which is removed, and which missing or other layer is drawn from |
| `Draws.DrawSpells` | crates/se-search/src/seed.rs:138-154 | a drawn condition is what the next three words spell: the feature at the first modulo the pool, the value at the rank nearest to the fraction 0.2 + 0.6 u of the second, above for a third word in its lower half and below otherwise |
| `Draws.UnitReads` | crates/se-search/src/rng.rs:37-39 | a unit draw is the word's upper 53 bits over 2^53 |
| `Draws.ChanceIs` | crates/se-search/src/rng.rs:59-61 | a chance p comes up exactly when the word's upper 53 bits are fewer than p in 2^53 |
| `Draws.IndexReads` | crates/se-search/src/rng.rs:42-47 | a bounded draw is the next word modulo the bound and an empty range draws no word |
| `Drawing.DrawPredicate` | crates/se-search/src/seed.rs:138-191 | a draw takes feature, inner quantile and direction from the generator in that order |
| `Drawing.DrawIsObserved` | crates/se-search/src/seed.rs:138-154 | a drawn condition is over a pool feature at an observed value, and a nonempty valid pool always yields one |
| `Drawing.LayeredDraw` | crates/se-search/src/seed.rs:167-191 | a draw restricted to layers gives an observed condition of one of those layers |
| `Catalog.FromWindows` | crates/se-search/src/seed.rs:56-90 | the catalog holds exactly the features observed often enough and varying, in key order, each with all its observed values sorted |
| `Catalog.QualifiesIff` | crates/se-search/src/seed.rs:38-90 | a feature qualifies exactly when it was observed often enough and two of its values lie more than 2^-52 apart |
| `Sowing.LayerIsNamed` | crates/se-search/src/seed.rs:122-134 | a key that opens with a layer's name and a dot is of that layer, and only such a key is of a layer other than the trigger |
| `Catalog.CatalogIsValid` | crates/se-search/src/seed.rs:56-90 | catalog keys are distinct, layers are read off the key, values are sorted and are exactly the observations |
| `Catalog.NearestRankIs` | crates/se-search/src/seed.rs:28-36 | a quantile is the value at the rank nearest to its fraction of the way from the first to the last, the later one when two are as near |
| `Catalog.QuantileMonotone` | crates/se-search/src/seed.rs:28-36 | a higher quantile never gives a smaller value; the ends give the least and greatest |
| `Seeding.SeedPopulation` | crates/se-search/src/seed.rs:470-513 | the imperative seeding equals the function `Seeded` on the generator state |
| `Seeding.SeededIsValid` | crates/se-search/src/seed.rs:470-513 | for every generator state a seed population has at most the requested size, only valid genomes of the horizon (four conditions, or the configured number if that is larger, at most), and no two described alike |
| `Seeding.DrawRandomGenome` | crates/se-search/src/seed.rs:401-433 | the imperative draw equals the function `RandomGenome` |
| `Seeding.RandomGenomeIsValid` | crates/se-search/src/seed.rs:401-433 | for every generator state a random genome is valid, of the horizon asked for, and has at most the configured number of conditions, or one |
| `Seeding.DrawPromotableGenome` | crates/se-search/src/seed.rs:203-249 | the imperative draw equals the function `PromotableGenome` |
| `Seeding.PromotableGenomeIsValid` | crates/se-search/src/seed.rs:203-249 | a biased genome is valid, has at most the configured number of conditions, or two, and always carries a trigger or location condition |
| `Seeding.ArchetypeSeedsAreValid` | crates/se-search/src/seed.rs:363-397 | every archetype expressible on a valid catalog becomes a valid genome |
| `Seeding.ArchetypesWellTagged` | crates/se-search/src/seed.rs:267-356 | every archetype template is tagged with the layer its key names |
| `Sowing.BoundIs` | crates/se-search/src/seed.rs:363-397 | templates over different features bind exactly when all of them were observed, and then each to its own layer, feature and operator at the value nearest to its fraction |
| `Sowing.ArchetypesPlanted` | crates/se-search/src/seed.rs:363-397 | the archetype seeds are, in order, the archetypes all of whose features were observed, each on its own side with its own conditions bound |
| `Sowing.PaddedCovers` | crates/se-search/src/seed.rs:401-433 | random padding keeps what it starts from and ends at its target, or every condition drawn in the attempts is over a feature already used |
| `Sowing.RandomGenomeIs` | crates/se-search/src/seed.rs:401-433 | a random genome is padded to one plus the first word modulo the most allowed, in four attempts a condition, and is long exactly when the word after its conditions is in its lower half |
| `Sowing.PromotableGenomeIs` | crates/se-search/src/seed.rs:203-249 | a biased genome opens with a condition of a trigger or location, then one of context when the catalog has any and it is over another feature, and is padded to two plus the word's share, within the most allowed |
| `Sowing.SeedDrawIs` | crates/se-search/src/seed.rs:493-506 | while the catalog has a trigger or a location, the bias decides by the word whether a seed is biased; otherwise every seed is random and no word is spent |
| `Sowing.SeededCovers` | crates/se-search/src/seed.rs:470-513 | a seeded population opens with the archetypes and has the size asked for, or else holds, as described, every archetype and every random seed of eight attempts a place |
| `Geometry.MutationReads` | crates/se-search/src/risk_search.rs:67-90 | a mutated geometry differs in the one respect its roll names: the stop refreshed, both targets aimed anew with a second exactly where there was one, or the stop's kind swapped |
| `Geometry.SwapReads` | crates/se-search/src/risk_search.rs:122-147 | a swapped stop: one roll in three keeps its kind; otherwise one in ranges becomes a percentage of one to three or two to eight dollars, and any other becomes one in ranges |
| `Geometry.CrossReads` | crates/se-search/src/risk_search.rs:93-106 | stop, first and second target each come from the first parent exactly when a word of their own is in its lower half |
| `Geometry.SampleReads` | crates/se-search/src/risk_search.rs:43-62 | a sampled geometry: the operator's kind of stop at a listed multiple or within a quarter of its size, the first target at a listed multiple of risk, the second one unit further and at most five |
| `RiskSearch.MutateRisk` | crates/se-search/src/risk_search.rs:67-90 | the imperative mutation equals the function `MutatedRisk` |
| `RiskSearch.SampleRisk` | crates/se-search/src/risk_search.rs:43-62 | the imperative sample equals the function `Sampled` |
| `RiskSearch.CrossoverRisk` | crates/se-search/src/risk_search.rs:93-106 | the imperative crossover equals the function `CrossedRisk` |
| `RiskSearch.SwapStopKind` | crates/se-search/src/risk_search.rs:122-147 | the imperative kind swap equals the function `SwappedKind` |
| `RiskSearch.StopsStayPositive` | crates/se-search/src/risk_search.rs:43-154 | sampled, mutated and crossed geometries keep a strictly positive stop for every generator state |
| `Rng.FinaliseBijection` | crates/se-search/src/rng.rs:28-34 | the output finaliser is a bijection on 64-bit words, with its inverse given |
| `Rng.OutputsRepeatWithFullPeriod` | crates/se-search/src/rng.rs:28-34 | two draws of a stream are equal exactly when they lie a multiple of 2^64 apart, so any 2^64 consecutive words are pairwise distinct |
| `Rng.SeedInjective` | crates/se-search/src/rng.rs:15-21 | equal seed states mean the base seeds agree exactly when the generations do |
| `Streams.OneCycle` | crates/se-search/src/rng.rs:13-34 | from any generator state a number of draws below 2^64 leads to any other, so every stream, of every base seed and generation, is a later part of every other |
| `Streams.ShiftedIff` | crates/se-search/src/rng.rs:28-34 | one stream is another from its n-th word on exactly when n draws lead from the one's state to the other's |
| `Streams.NextSeedIsNextWord` | crates/se-search/src/rng.rs:13-21 | in every generation the next base seed's stream is this one's less its first word |
| `Streams.NextGenerationIsShifted` | crates/se-search/src/rng.rs:13-21 | from one generation to the next the stream moves on by the same number of draws, whatever the base seed and the generation |
| `Streams.SeedStateIs` | crates/se-search/src/rng.rs:15-21 | a generator starts at the base seed and the generation, each times its odd constant, plus the golden increment, modulo 2^64 |
| `Rng.Generator.Next` | crates/se-search/src/rng.rs:28-34 | a draw advances the state by the golden increment and returns its finalisation |
| `Rng.Generator.Below` | crates/se-search/src/rng.rs:42-47 | a bounded draw is the next word modulo the bound, with no draw for an empty range |
| `Score.WilsonIsLowerRoot` | crates/se-search/src/score.rs:49-60 | the bound lies in [0, p], solves (p - x)^2 = (z^2 / n) x (1 - x), and its final clamp never bites |
| `Score.WilsonSeparates` | crates/se-search/src/score.rs:49-60 | below p the points at or under the bound are exactly those with (p - x)^2 at least (z^2 / n) x (1 - x), which makes it the smaller root |
| `Score.WilsonMonotone` | crates/se-search/src/score.rs:49-60 | the bound never falls as n or p grows |
| `Grading.PromotableIff` | crates/se-search/src/population.rs:60-75 | a strategy is promotable exactly when its gate passed, it has a condition on a trigger or a location, at least eight trades were acted on, and n (p - 0.45)^2 reaches 1.96^2 0.45 0.55 with p above 0.45 |
| `Grading.LiveRefusesIff` | crates/se-signal/src/lib.rs:235-244 | the live path refuses a stored count that reads negative, and one of eight or more for which p is not above 0.40 or n (p - 0.40)^2 falls short of 1.96^2 0.40 0.60 |
| `Score.GateAddsNothing` | crates/se-search/src/score.rs:142-147 | for a score whose gate was taken on its own numbers the gate arm of the survivor rule adds nothing: passing is surviving with two or more positive regimes |
| `Score.LiveFloorRefusesIff` | crates/se-signal/src/lib.rs:235-244 | the live floor refuses a promotable score exactly when the low 32 bits of its acted count read as negative or, for counts of 2^32 and more whose low word is at least eight, when (p - 0.40)^2 is below (z^2 / low) 0.40 (1 - 0.40); never below 2^31 |
| `Score.LiveFloorCanRefuse` | crates/se-search/src/persist.rs:81 | a promotable score with 2^31 acted trades is refused, because the count is stored in 32 signed bits |
| `Signature.GenomeSignature` | crates/se-search/src/score.rs:218-244 | the imperative signature equals the signature function |
| `Signature.GridIs` | crates/se-search/src/score.rs:184-191 | the grid point of a threshold is the whole number of ten-thousandths nearest to it, the one further from zero when two are as near |
| `Signature.SignatureCanonical` | crates/se-search/src/score.rs:204-244 | for two genomes whose keys hold no `&`, or whose keys hold no bar, signatures are equal exactly when side, horizon, the multiset of conditions on the four-decimal grid, the kinds of the risk geometry and the sign and hundredths of each of its magnitudes agree |
| `Signature.PermutationInvariant` | crates/se-core/src/strategy.rs:147-153 | reordering a genome's conditions changes neither its signature nor when it fires |
| `Signature.DelimiterKeysCollide` | crates/se-search/src/score.rs:218-244 | with both delimiters allowed in keys the signature is not canonical: every two-condition genome shares its signature with a one-condition genome |
| `Signature.AvoidingEitherDecides` | crates/se-search/src/score.rs:218-244 | of the two delimiters, all genomes whose keys avoid the chosen ones are told apart by their signatures exactly when at least one is chosen |
| `Display.RiskTextCanonical` | crates/se-core/src/risk.rs:254-268 | two risk descriptions are equal exactly when the stop and target kinds agree and the magnitudes show the same sign and hundredths |
| `Display.NumbersAlike` | crates/se-core/src/risk.rs:74-78 | two magnitudes are written alike, trailing zeros trimmed, exactly when their signs and their roundings to hundredths agree |
| `Indicators.ComputeSlopeSign` | crates/se-features/src/indicators.rs:250-269 | the loop computes the slope sign, +1 on rising and -1 on falling series of two or more |
| `Indicators.RisingSlope` | crates/se-features/src/indicators.rs:250-269 | the least-squares numerator of a strictly rising series is positive (Chebyshev's sum inequality) |
| `Indicators.SlopeSignAffine` | crates/se-features/src/indicators.rs:250-269 | adding a constant or scaling by a positive factor keeps the slope sign; a negative factor negates it |
| `Indicators.SlopeSignIsLeastSquares` | crates/se-features/src/indicators.rs:250-269 | the slope sign is the sign of the unique slope minimising the squared error over all lines |
| `Wilder.ObvSteps` | crates/se-features/src/indicators.rs:231-246 | on-balance volume starts at zero and moves by each bar's volume with the sign of its close's change |
| `Momentum.ComputeObv` | crates/se-features/src/indicators.rs:231-246 | the loop computes on-balance volume |
| `Momentum.ObvSlopeOfUptrend` | crates/se-features/src/indicators.rs:231-269 | on-balance volume of strictly rising closes with positive volumes has slope sign +1 |
| `Momentum.ComputeRsi` | crates/se-features/src/indicators.rs:168-190 | the loop computes the index, available exactly when 0 < period < length, and in [0, 100] |
| `Wilder.RsiIsShare` | crates/se-features/src/indicators.rs:168-190 | the index times the two averages together is a hundred times the average gain, and a hundred without losses; each average is its seed mean and every later change weighted by powers of 1 - 1/period |
| `Momentum.RsiMirror` | crates/se-features/src/indicators.rs:168-190 | negating the closes turns the index into a hundred minus itself exactly when the series is not flat for the period |
| `Momentum.FlatReadsHundred` | crates/se-features/src/indicators.rs:168-190 | a flat series reads a hundred, and so does its negation |
| `Momentum.FlatIffNoAverages` | crates/se-features/src/indicators.rs:168-190 | flatness of the closes is exactly both final averages being zero |
| `Momentum.ComputeAdx` | crates/se-features/src/indicators.rs:89-164 | the loops compute the index the function `Adx` gives, which `Wilder.AdxReads` reads, in [0, 100] on consistent bars |
| `Wilder.MoveReads` | crates/se-features/src/indicators.rs:98-115 | at most the larger positive excursion counts, to its own side, and the range is the largest of the three distances |
| `Wilder.RollingWeighs` | crates/se-features/src/indicators.rs:117-144 | each running sum is the seed sum decayed by 1 - 1/period per later bar plus each later move decayed per bar after it |
| `Wilder.DxIsShare` | crates/se-features/src/indicators.rs:123-135 | the directional index of sums with range and movement, times the two movements together, is a hundred times their difference; nothing without range, zero without movement |
| `Wilder.DxsAre` | crates/se-features/src/indicators.rs:137-150 | there is one reading for each running sum with a positive range, in order |
| `Wilder.SmoothedMeanWeighs` | crates/se-features/src/indicators.rs:159-163 | the smoothed mean is the seed mean decayed by 1 - 1/period per later reading plus a period's share of each later reading, decayed per reading after it |
| `Wilder.AdxReads` | crates/se-features/src/indicators.rs:89-164 | the index needs two periods and a bar; it is the smoothed mean once there are a period of readings, their mean while there are fewer, and nothing without any |
| `Wilder.AdxOfClimb` | crates/se-features/src/indicators.rs:89-164 | consistent bars whose highs and lows strictly rise read exactly a hundred |
| `Momentum.SmoothedMovementWithinRange` | crates/se-features/src/indicators.rs:89-164 | at every step the smoothed directional movements together never exceed the smoothed true range |
| `Momentum.AdxInRange` | crates/se-features/src/indicators.rs:89-164 | the index lies in [0, 100] on consistent bars |
| `Momentum.AdxUnsigned` | crates/se-features/src/indicators.rs:89-164 | turning every price upside down leaves the index unchanged |
| `Detectors.CvarIsLeastMean` | crates/se-monitor/src/detectors.rs:107-118 | the expected shortfall is the least mean over all index subsets of the tail size, and is attained |
| `Detectors.CvarPermutationInvariant` | crates/se-monitor/src/detectors.rs:107-118 | it does not depend on the order of outcomes |
| `Detectors.CvarMonotoneInAlpha` | crates/se-monitor/src/detectors.rs:107-118 | it never falls as alpha grows |
| `Detectors.CvarAtMostMean` | crates/se-monitor/src/detectors.rs:107-118 | it is at most the overall mean |
| `Detectors.ComputeMaxDrawdown` | crates/se-monitor/src/detectors.rs:122-140 | the single pass returns the least rise of the prefix sums over any stretch, attained, and nothing on an empty series |
| `Detectors.NoDrawdownIffNoLosingRun` | crates/se-monitor/src/detectors.rs:122-140 | the drawdown is never positive, and is zero exactly when no run of consecutive outcomes sums below zero |
| `Detectors.ConcatDrawdown` | crates/se-monitor/src/detectors.rs:122-140 | the drawdown of a concatenation is no better than that of either part |
| `Detectors.ZReachesWithRoots` | crates/se-monitor/src/detectors.rs:156-231 | the root-free significance comparison agrees with the source's quotient by the standard error, its zero-deviation cases included |
| `Verdicts.DecayIff` | crates/se-monitor/src/detectors.rs:206-231 | decay fires exactly on enough outcomes whose shortfalls from zero reach the level in sums alone (total T, squares Q: T above zero and (n - 1) T^2 at least z^2 (n Q - T^2)), and demotes on their mean against zero |
| `Verdicts.DivergenceIff` | crates/se-monitor/src/detectors.rs:156-197 | a quarantine is called exactly on enough outcomes whose shortfalls from the backtest reach its level in sums and its step on average, a smaller size exactly when only the smaller level is reached, each on the mean shortfall against its step |
| `Verdicts.CalibrationIff` | crates/se-monitor/src/detectors.rs:271-290 | calibration breaks exactly when, over the trades both lists cover, the convictions' total and the number of wins are apart by the allowed gap a trade or more |
| `Verdicts.DefaultLevels` | crates/se-monitor/src/detectors.rs:48-67 | the same with the levels the monitor ships with |
| `Verdicts.DrawdownTells` | crates/se-monitor/src/detectors.rs:235-264 | a drawdown verdict always disables: on the attained least tail mean against its floor when that is reached, and otherwise on the deepest fall of the equity curve against its own |
| `Verdicts.TailSizeIs` | crates/se-monitor/src/detectors.rs:107-118 | the tail is the least number of outcomes, one or more, that makes up the share asked for, and all of them for a share of one or more |
| `Detectors.DivergenceEscalates` | crates/se-monitor/src/detectors.rs:156-197 | against a better backtest record the same live record draws no weaker verdict |
| `Detectors.DrawdownFiresIff` | crates/se-monitor/src/detectors.rs:235-264 | the detector fires exactly when some tail-sized choice or some consecutive run of outcomes is as bad as its floor |
| `Trades.JournalAgreesWithMonitor` | crates/se-journal/src/lib.rs:285-320 | the journal's tail statistic equals the monitor's expected shortfall at five percent, hence is the least tail mean and at most the expectancy |
| `Trades.TradeStats.Push` | crates/se-cli/src/trades.rs:69-78 | the running tally's counts and sums are those of the whole history extended by the new outcome |
| `Trades.GrossIs` | crates/se-cli/src/trades.rs:69-78 | the tally's running sums are the outcomes won and those lost, added up, and it counts the winning ones |
| `Trades.TallyTells` | crates/se-cli/src/trades.rs:97-103 | the tally's factor times the losses is the gains, and it is unbounded exactly without losses |
| `Trades.JournalTells` | crates/se-journal/src/lib.rs:285-320 | so is the journal's while there are losses, else unbounded if anything was won and zero if nothing was; the expectancy is the total per trade |
| `Trades.ProfitFactorsAgreeIff` | crates/se-cli/src/trades.rs:97-103 | the tally's and the journal's profit factors agree exactly when some outcome is not zero |
| `Trades.ProfitFactorsCanDiffer` | crates/se-cli/src/trades.rs:97-103 | one scratch trade makes the tally's factor unbounded and the journal's zero |
| `Trades.TradeStats.ProfitFactor` | crates/se-cli/src/trades.rs:97-103 | the tally's factor is that of the whole history, unbounded without losses |
| `Monitor.Desk.RunDaily` | crates/se-monitor/src/lib.rs:75-220 | the imperative day leaves statuses, appended events and counts as the function `Daily` says |
| `Monitor.Desk.ApplyDecision` | crates/se-monitor/src/lib.rs:227-259 | a decision writes its event and then the lifecycle change its action implies, if any |
| `Monitor.DailyStatus` | crates/se-monitor/src/lib.rs:75-220 | the day's status of each strategy: retired stays; else decay demotes, else drawdown retires, else a quarantine-level divergence quarantines, else it stays; then a promoted strategy whose score fails the gate is demoted |
| `Monitor.DayOnlyTakesDown` | crates/se-monitor/src/lib.rs:75-220 | nothing becomes promoted or candidate, nothing retired is touched, and every strategy still promoted with a score passes all four gate conditions |
| `Monitor.DayIsIdempotent` | crates/se-monitor/src/lib.rs:75-220 | a second day on the same trades and scores changes no status |
| `Monitor.DecayOverridesDisable` | crates/se-monitor/src/lib.rs:98-135 | a strategy disabled by drawdown ends the day retired exactly when decay does not fire too |
| `Monitor.DisabledThenDemoted` | crates/se-monitor/src/lib.rs:98-135 | it happens: after fifteen full losses both detectors fire under the default thresholds and a promoted strategy ends the day demoted |
| `Monitor.CalibrationPairsIff` | crates/se-monitor/src/lib.rs:117-124 | the convictions and wins calibration compares belong, position by position, to the same trades exactly when no open trade with a conviction precedes a closed one |
| `Monitor.OpenTradeMispairs` | crates/se-monitor/src/detectors.rs:266-277 | an open trade ahead of a closed one: its conviction is compared with the other's win |
| `DayBook.LogReplays` | crates/se-monitor/src/lib.rs:75-259 | replaying a day's events in order on the statuses before it gives exactly the statuses after it, for every world and every thresholds |
| `DayBook.LogAddsUp` | crates/se-monitor/src/lib.rs:40-63 | the report is the log counted by detector, alerts aside |
| `DayBook.DayLogs` | crates/se-monitor/src/lib.rs:75-220 | an event is logged exactly when it tells of a detector fired on a strategy not retired, with that detector's metric, threshold and action (drawdown with an alert besides), of a strategy the detectors leave promoted whose score fails the gate, of a source older than allowed, its age in hours, or of too many observations out of distribution |
| `DayBook.InputsAre` | crates/se-monitor/src/lib.rs:84-124 | the detectors are given the closed trades' outcomes, the convictions of the trades that have one, and whether each closed trade with a conviction won, in the order of the trades |
| `DayBook.RegateIsPromotionGate` | crates/se-validation/src/gate.rs:63-67 | the nightly gate is the promotion gate on a full score row, and a row with a missing number never passes it |
| `Monitor.EventsMatchReport` | crates/se-monitor/src/lib.rs:55-63 | the events written number the report's total plus its drawdowns and stale sources |
| `Pit.ReadsIgnoreLaterWrites` | crates/se-store/src/pit.rs:49-201 | any history of writes none of whose rows is knowable at the cutoff, failed batches included, leaves every read at the cutoff unchanged |
| `Pit.NewestVersionIsNewest` | crates/se-store/src/pit.rs:49-89 | the version read is visible and no visible version is later by decision bar, then knowledge time |
| `Pit.NewestUnique` | crates/se-store/src/pit.rs:72-89 | a visible version that is lexicographically latest is the one read |
| `Pit.BulkReadAgrees` | crates/se-store/src/pit.rs:49-89 | the unrestricted bulk read holds for each key exactly what the single read returns |
| `Pit.LayerReadAgreesIff` | crates/se-store/src/pit.rs:49-69 | the layer-restricted bulk read agrees with the single read exactly when the newest version is of that layer |
| `Pit.LayerReadCanBeStale` | crates/se-store/src/pit.rs:49-89 | it happens: two stored versions of one key under different layers, the older of which the layer it left still reads |
| `Pit.MacroHistoryIsRecent` | crates/se-store/src/pit.rs:179-201 | the history is strictly ascending in date, each date at its newest visible vintage, and leaves out only older dates |
| `Pit.NewestVintageWins` | crates/se-store/src/pit.rs:160-201 | a date's value comes from a visible vintage at least as new as any visible one |
| `Pit.HistoryEndsAtValue` | crates/se-store/src/pit.rs:160-201 | for a lookback of at least one the history's last value is the value as of the cutoff, and both are absent together |
| `Pit.BarsEndAtLatest` | crates/se-store/src/pit.rs:98-147 | bars come back visible and oldest first, the last being the latest bar for any lookback of at least one |
| `Readback.BarsReadBack` | crates/se-store/src/pit.rs:98-147 | a batch of bars written and read as of any instant from then on gives back each bar the batch ended with, price by price, whatever was stored before |
| `Readback.StoredPrices` | crates/se-store/src/pit.rs:98-127 | each bar read carries the stored open, high, low, close and volume of its own instant |
| `Readback.UpsertFailsIff` | crates/se-store/src/store.rs:75-107 | a batch fails exactly when two rows of one statement name the same key; it may name a key again in another statement |
| `Readback.StatementSizes` | crates/se-store/src/store.rs:75-170 | a statement holds two thousand bars or features, or five thousand macro points |
| `Readback.FeatureReadsBack` | crates/se-store/src/pit.rs:72-89 | a feature written, and newest of all stored or written versions visible at the cutoff, is what the read returns with its value, layer, knowledge time, lead time and source |
| `Readback.MacroReadsBack` | crates/se-store/src/pit.rs:160-201 | a vintage written, and newest of those of its date visible at the cutoff, gives the date its value |
| `Readback.LatestDateDecides` | crates/se-store/src/pit.rs:160-176 | the value as of the cutoff is that of the latest visible date |
| `Pit.Database.UpsertBars` | crates/se-store/src/store.rs:75-107 | the chunked write leaves the table and the outcome of the chunk function; each bar is knowable at its own timestamp |
| `Pit.Database.InsertFeatures` | crates/se-store/src/store.rs:110-139 | the chunked write leaves the table and the outcome of the chunk function |
| `Pit.Database.UpsertMacro` | crates/se-store/src/store.rs:144-170 | the chunked write leaves the table and the outcome of the chunk function |
| `Pit.UpsertInChunks` | crates/se-store/src/store.rs:75-107 | statement by statement, stopping at the first failure, the loop computes the chunk function and the total of affected rows |
| `Tables.UpsertWrites` | crates/se-store/src/store.rs:110-139 | a successful batch writes all its rows and counts each; a failed one has written some prefix of them |
| `Tables.UpsertIdempotent` | crates/se-store/src/store.rs:70-107 | repeating a successful batch succeeds again and changes nothing |
| `ActThreshold.SelectActThreshold` | ml-worker/src/se_ml/server.py:390-451 | the walk over ranked candidates computes the selection function |
| `ActThreshold.RankPrecisionFirst` | ml-worker/src/se_ml/server.py:365-387 | the loop and sort compute the ranking of qualifying thresholds |
| `ActThreshold.SelectionIsBest` | ml-worker/src/se_ml/server.py:390-451 | if some grid threshold clears every constraint on the first fold and holds on the second, the selection is one of those and none of them outranks it by precision, expectancy, then lower threshold; otherwise it is one half |
| `ActThreshold.FoldsExistIff` | ml-worker/src/se_ml/server.py:422-437 | both folds are non-empty exactly for two rows or more; for fewer the selection is one half |
| `ActThreshold.QualifiedAre` | ml-worker/src/se_ml/server.py:378-386 | exactly the grid thresholds that clear expectancy, acted count and recall are ranked |
| `Acting.StatsAre` | ml-worker/src/se_ml/server.py:315-342 | the acting statistics count: precision is the share of the rows acted on, and recall the share of the profitable rows, that are both, and expectancy the net result per row acted on, absent when there is none |
| `Acting.PassesIff` | ml-worker/src/se_ml/server.py:345-362 | a threshold clears the constraints exactly when it acts on enough rows, they return more than they cost, and, where recall counts, they hold a tenth of the profitable rows |
| `Acting.OutranksIff` | ml-worker/src/se_ml/server.py:365-387 | one threshold outranks another by cross products alone: the larger profitable share of the rows it acts on, then the larger net result per row, then being no higher |
| `Acting.FoldSizes` | ml-worker/src/se_ml/server.py:428-441 | the selection fold is seventy percent of the rows rounded down and the floor on rows acted on a tenth of the fold rounded up, at least eight |
| `Acting.BoundaryIsMedian` | ml-worker/src/se_ml/server.py:484-514 | the calendar boundary is a row's time with at most half the rows before it and fewer than half after it |
| `Acting.CalendarDecides` | ml-worker/src/se_ml/server.py:484-514 | the calendar decides exactly when it leaves at least twenty rows on either side, and then the rows before the boundary are in sample; otherwise the first half is |
| `ActThreshold.SortedInRankOrder` | ml-worker/src/se_ml/server.py:385-387 | the ranking lists thresholds best first |
| `ActThreshold.CalendarSplit` | ml-worker/src/se_ml/server.py:484-514 | a usable calendar boundary splits chronologically, and on strictly increasing timestamps the split is the row split at the midpoint |

## Left out

- Floating point: rounding, NaN and infinities; values are exact reals, an absent number is an option, and `Detectors.ZReachesWithRoots` covers the infinite z of a zero deviation.
- WilsonLowerBound: takes the square root as an argument; its theorems require the argument to be non-negative with the radicand as its square.
- Leaderboard: the comparator's fallback for values that do not compare, since reals always do.
- RunSearch: a database or persistence error, which aborts the source's run part-way, is not modelled; the invariant is stated between generations.
- RunSearch: strategy ids are minted from a counter above all existing ids in place of random 128-bit ids.
- DatasetNonInterference: covers rows that start before the era and no later than its end, which for an era whose start does not follow its end is every row before it; an inverted era purges nothing that starts between its end and its start.
- RunIgnoresReservedEra: covers searches whose decision points resume more than a cooldown after the era; nearer points can be contested, as `Aftermath.KeptRowsSameIff` says window by window, and then the run can change.
- KeptRowsSameIff: compares windows with the same bar timestamps, which a trading calendar fixes; prices, volumes and points inside the era may differ at will.
- EveryGenomeIsFit: assumes a valid catalog, which `Evolve.NewManager` provides.
- OrderCanMatter: shows two datasets that differ; what the worker makes of the difference is not modelled.
- FromWindows: the finiteness filter on observations has no counterpart, since reals are always finite.
- ReadFeatures: is a map by key, so the alphabetical order of the returned list is not stated; rows whose stored ticker or layer text does not parse, which no modelled write produces, are not represented.
- UpsertChunks: a statement naming a key twice fails as the database makes it fail; connection failures are not modelled.
- Seeding and generation: the debug counters of dropped duplicates, and log output.
- Monitor: the free-text notes and structured detail of events, the event timestamp, and the queries that gather trades, scores and source ages, whose results are inputs.
- ActThreshold: the quantile computation of the candidate grid (any grid is allowed) and the rounding of the fold cut and acted floor in binary floating point.
- The worker's models, cross-validation, overfit and deflated-Sharpe statistics, uniqueness weights and calibration: the score is an arbitrary function.
- The regime classifier and the feature modules: arbitrary functions of a point's features.
- The remaining indicators (`sma`, `ema`, `atr`, `roc`, `rsi_slope`, realized volatility, dollar volume): direct sums and quotients.
- HTTP providers, the web API and sockets, the command line, the web application, configuration and environment loading: input and output.
- Data-transfer mapping, enum-to-text tables and persistence of JSON: finite case tables.
