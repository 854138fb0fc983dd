# Verification of the updater's solver and state machines

The updater chooses packages with the SAT solver PicoSAT, linked from
`src/lib/picosat-965`, and runs on three smaller state machines: the journal
that survives crashes, the event loop that runs commands, and the lists of
keys and certificates that URIs share. This project models these four parts
and proves what they promise.

`dafny verify dfyconfig.toml` checks everything.

## The parts

**The solver.** The configuration modelled is the one that is built: traces
are on, so binary clauses are clauses with antecedents of their own, and there
are no all-different constraints. `Solver.dfy` holds the solver as a class
whose methods follow the functions of the source. Its invariant has four
parts: what is stored follows from the formula and records its antecedents
(`Store`, `Zhain`); the trail is justified, level by level, by reasons that
are never collected (`Trail`, `TopLevel`); every false watch that was
propagated has a true partner of no higher level or its clause is parked on
that partner (`Watch`, `Propagation`); and every decision up to a recorded
level is an assumption (`Undoing`). `Graph` is the implication graph;
`Analysis`, `Uip`, `Minimize` and `Learning` are conflict analysis, specified
over that graph; `Backjump`, `Failing` and `Rejustify` what is learned from it;
`Adding` how clauses come in; `Verdict` what the answers mean; `Progress`
and `Schedule` why search ends, with the restarts of `Luby`. `Subsets`, `Mus`
and `Core` are built on the solver's interface: maximal satisfiable, minimal
correcting and minimal unsatisfiable subsets, and the clausal core. `Heap`,
`SoftFloat` and `RandomDecide` stand by themselves.

A model is a function from variables to truth values, a formula is the set of
clauses the user has added, and satisfiability is the existence of a model:
none of the statements about answers speaks of the solver's own data.

**The journal.** `Journal.dfy` has the byte format, the writing loop with
interrupted and short calls, a crash at any byte, and recovery. `Canary.dfy`
has what the canary of the format detects.

**The event loop.** `EventState.dfy` has the tables, the queue and their
invariant; `EventFlow.dfy` what passes bring to whom; `Events.dfy` the loop.
What the rest of the world does is a script of arbitrary steps: passes of the
underlying loop that bring any events in any order, and what callbacks do in
between, waiting included.

**The URIs.** `UriHeap.dfy` has memory and the invariant that ties counts to
reachability; `UriRelease`, `UriMaking`, `UriChange` and `UriReading` the
steps; `Uri.dfy` the operations.

## Model

| member | source | states |
|---|---|---|
| Solver.Solver.Solve | src/lib/picosat-965/picosat.c:7126-7183 | For every formula, every list of assumptions and every history of calls: Unsat means that clauses and assumptions have no common model; Sat means that the trail assigns every variable and is a model of all clauses in which all assumptions hold; Unknown only after as many decisions as a decision limit allows, or when the propagation limit, which is all bits set unless changed, was reached. Formula and assumptions are unchanged, and what was fixed on level 0 stays fixed |
| Solver.Solver.Search | src/lib/picosat-965/picosat.c:5898-6010 | The search loop ends, and below the propagation limit and without a decision limit it ends with Sat or Unsat: simplifications need newly fixed variables, restarts need ever more conflicts, and conflicts are bounded in between; its answer is right in the same sense; the invariant of clause store, trail, watches and assumptions holds again when it stops. Unsat leaves either the empty clause or a failed assumption whose reason consists of decisions |
| Progress.BackjumpIsWorthMore | src/lib/picosat-965/picosat.c:4561-4599 | The trail after a backjump and the assignment of the learned literal is worth more than the one before, whatever was given up |
| Progress.ExtendedIsWorthMore | src/lib/picosat-965/picosat.c:5898-6010 | Propagation and decisions never make the trail worth less, and each new assignment makes it worth more |
| Progress.WorthIsBounded | src/lib/picosat-965/picosat.c:5898-6010 | The worth of every trail is bounded by a number that depends on the variables only |
| Schedule.ScheduleTicks | src/lib/picosat-965/picosat.c:4856-4861 | With the restart at each position n of the sequence coming 100 times its n-th value in conflicts after the one before, the restart at a position whose value exceeds the worth of all trails is never due, so the position reached never passes it |
| Schedule.LubyIsUnbounded | src/lib/picosat-965/picosat.c:4840-4861 | Such a position comes after every position: the intervals between restarts outgrow every bound, although short ones keep coming back |
| Schedule.FixedGrows | src/lib/picosat-965/picosat.c:5983-5995 | The number of variables assigned for good, which simplifying and starting the restart sequence over wait to grow, never falls |
| Solver.Solver.ReduceAndRestart | src/lib/picosat-965/picosat.c:5998-6003 | Reduction and restart keep all invariants; the next restart is put off to the next value of the sequence exactly when as many conflicts as scheduled have passed above level 2, and then the search is back on level 0 unless the trail was judged too active |
| Solver.Solver.Bcp | src/lib/picosat-965/picosat.c:4321-4355 | Without a conflict everything assigned has been propagated; the trail only grows, on the same level; every step keeps the invariant, and the propagation counter counts the assignments visited |
| Propagation.Scan | src/lib/picosat-965/picosat.c:4321-4355 | When propagation came to rest without a conflict, no stored clause is falsified, and none has one unassigned literal and otherwise false ones: two watches find what a scan of every clause would find |
| Watch.ScanLarge | src/lib/picosat-965/picosat.c:4010-4150 | The watch invariant (a propagated false watch has a true partner of no higher level, or the clause is parked on that partner) implies that a clause of three or more literals is neither false nor unit |
| Solver.Solver.Prop2 | src/lib/picosat-965/picosat.c:3887-3983 | All binary clauses of a false literal are visited: implied literals are assigned with the clause as reason, a falsified clause becomes the conflict, and the formula stays the same |
| Solver.Solver.VisitBinary | src/lib/picosat-965/picosat.c:3887-3983 | After the visit the binary clause is true or unit-propagated, or there is a conflict; clauses seen before stay in order |
| Solver.Solver.Propl | src/lib/picosat-965/picosat.c:4010-4150 | All clauses on the watch list of a false literal are visited, moved, parked or propagated, and the watch invariant advances by one assignment |
| Solver.Solver.FindWatch | src/lib/picosat-965/picosat.c:4010-4150 | Finds the first literal after the two watches that is not false; past the end means that all of them are false |
| Solver.Solver.FirstWatch | src/lib/picosat-965/picosat.c:4010-4150 | Puts the false watch first without disturbing which literals are watched |
| Watch.WalkPark | src/lib/picosat-965/picosat.c:3987-4006 | A clause whose other watch is true on an earlier level may leave the list of the false watch and be parked on the true one |
| Watch.WatchedPop | src/lib/picosat-965/picosat.c:2985-3028 | Unassigning a literal and putting the clauses parked on it back on their other watch keeps the watch invariant |
| Watch.WatchedAttach | src/lib/picosat-965/picosat.c:2066-2092 | Attaching a clause whose two watches are in order keeps the watch invariant |
| Solver.Solver.Imply | src/lib/picosat-965/picosat.c:1973-2029 | The last literal of a clause that became unit is assigned on the current level, with that clause as its reason, or, on level 0, with a unit clause derived for it |
| Solver.Solver.AssignForced | src/lib/picosat-965/picosat.c:1973-2029 | The literal is pushed with its level and reason; on level 0 the reason is a new unit clause unless the clause is one already |
| Solver.Solver.ResolveTopLevelUnit | src/lib/picosat-965/picosat.c:1884-1936 | The unit clause of a literal forced on level 0 is stored; its antecedents are just the clause and the units of its false literals |
| TopLevel.ResolveFalse | src/lib/picosat-965/picosat.c:1884-1936 | Resolving a clause with the reasons of its false level-0 literals gives exactly the literals that are left; the clause over them follows from just the clause and these reasons |
| Solver.Solver.Unassign | src/lib/picosat-965/picosat.c:2946-3028 | Takes back exactly the last assignment, unlocks its reason and returns parked clauses, while everything below keeps its watches |
| Solver.Solver.Undo | src/lib/picosat-965/picosat.c:3061-3102 | Cuts the trail to exactly the assignments of the levels up to the given one, in order; propagation is complete again and the account of the assumptions is right, starting over when the level is below the last assumption |
| Solver.Solver.Backtrack | src/lib/picosat-965/picosat.c:4561-4599 | From any conflict: either the empty clause is learned, or the solver jumps to a strictly lower level and has one new assignment to propagate; the one clause stored is the one conflict analysis specifies, with its antecedents, and it is the reason of that assignment; all invariants hold again |
| Learning.Analyze | src/lib/picosat-965/picosat.c:3518-3765 | The clause built after minimisation is fixed by the implication graph: the first unique implication point, and of the lower-level variables that the conflict and the implications after that point rest on just those that a path connects with a decision without touching another of them. It is false under the current assignment and follows from its antecedents, which are just the conflict, the reasons after the point, and the reasons of what was dropped |
| Graph.FirstUipIsUnique | src/lib/picosat-965/picosat.c:3531-3620 | At most one variable is a first unique implication point |
| Minimize.RedundantIff | src/lib/picosat-965/picosat.c:3640-3737 | Once the search is over, a variable of the first side passes the final test for redundancy exactly if every path from it to a decision touches another one |
| Minimize.HopelessIsRooted | src/lib/picosat-965/picosat.c:3674-3684 | Giving up early at a level below the lowest or with a hash not seen never changes the outcome: on a level without marks a path leads to the decision |
| Minimize.MarkedIsAbsorbed | src/lib/picosat-965/picosat.c:3640-3701 | Whatever else the search leaves marked lies on the way from a dropped variable to those that stay |
| Minimize.AbsorbedIsMarked | src/lib/picosat-965/picosat.c:3640-3701 | And all that lies on such a way is marked, so that its reasons become antecedents |
| Learning.LearnedIsImplied | src/lib/picosat-965/picosat.c:3703-3738 | Dropping all redundant variables at once leaves a clause that still follows from the antecedents (induction along the trail) |
| Learning.DropsStayRefuted | src/lib/picosat-965/picosat.c:3600-3700 | The antecedents together with the reasons of the dropped variables refute the negation of the clause that is left |
| Minimize.Explore | src/lib/picosat-965/picosat.c:3600-3700 | A depth-first search marks variables below the current level that are closed under their reasons, and either covers the reason of its start or finds the start blocked by a decision or by a level without marks |
| Minimize.RedundantIsClosed | src/lib/picosat-965/picosat.c:3600-3700 | A variable called redundant has a reason all of whose other variables are marked |
| Uip.FirstUip | src/lib/picosat-965/picosat.c:3531-3620 | Resolving backwards along the trail stops at the first unique implication point: every path from the conflict to the decision of its level passes through it, and around each variable of the level assigned later there is a path. The marks left are just the lower-level variables that paths through later variables reach, the clauses resolved with just the conflict and the reasons of the later variables that paths reach, and the literals refute the formula together with them |
| Uip.ExploreStep | src/lib/picosat-965/picosat.c:3541-3620 | Resolving on one variable, with another of the level still marked, keeps the marks at exactly what paths reach, and shows a path around every variable passed |
| Uip.ExploreEnd | src/lib/picosat-965/picosat.c:3618-3620 | When no other variable of the level is marked, all paths meet in the one just reached |
| Graph.Avoids | src/lib/picosat-965/picosat.c:3618-3620 | A path to an earlier variable of the level that does not touch a later one goes on to the decision without touching it |
| Backjump.Drive | src/lib/picosat-965/picosat.c:4358-4375 | The level to return to: the highest level of the clause below the conflict level |
| Backjump.BecomesUnit | src/lib/picosat-965/picosat.c:4561-4599 | After undoing to the level that Drive returns the learned clause has one unassigned literal and otherwise false ones |
| Backjump.LearnLarge | src/lib/picosat-965/picosat.c:2280-2580 | Storing, linking and asserting a learned clause after a backjump keeps the watch invariant |
| Solver.Solver.Learn | src/lib/picosat-965/picosat.c:2280-2580 | A learned clause, unit after the jump, is stored with just its antecedents, and its first literal is assigned on the level jumped to, with the clause as reason |
| Solver.Solver.LearnEmpty | src/lib/picosat-965/picosat.c:4561-4599 | A conflict on level 0 stores the empty clause with just its antecedents |
| Solver.Solver.StoreClause | src/lib/picosat-965/picosat.c:2280-2580 | A clause is stored under a fresh index, even for original clauses and odd for learned ones, with its literals sorted; the chain of a learned one holds just the antecedents given, which must imply it, and other chains stay |
| Ordering.SortLits | src/lib/picosat-965/picosat.c:1682-1688 | The literals are permuted so that unassigned ones come first and the others by falling decision level; the two of a binary clause may come in either order |
| Store.StoredIsSound | src/lib/picosat-965/picosat.c:5898-6010 | Every clause ever stored, learned, minimised, unit or empty, follows from the clauses the user added |
| Store.StoreEquivalent | src/lib/picosat-965/picosat.c:4691-4807 | At every moment the clauses still stored together with the level-0 assignments have exactly the models of the clauses the user added |
| Solver.Solver.CollectClauses | src/lib/picosat-965/picosat.c:4691-4807 | Unlinks and forgets exactly the marked clauses, none of which is a reason; the invariant of a solver at rest is kept |
| Solver.Solver.MarkClauses | src/lib/picosat-965/picosat.c:4691-4807 | Marks no locked clause, and only learned clauses or clauses true on level 0; simplification marks every unlocked clause that is true on level 0 |
| TopLevel.TrailCollect | src/lib/picosat-965/picosat.c:4650-4688 | Collecting unlocked clauses leaves every reason in place |
| Solver.Solver.Reduce | src/lib/picosat-965/picosat.c:5516-5617 | Only unlocked clauses that are learned or true on level 0 go; the others stay as they are, and no reason is lost |
| Solver.Solver.Restart | src/lib/picosat-965/picosat.c:4897-4954 | Back to level 0 with all level-0 assignments and everything learned; the assumptions start over |
| Solver.Solver.Simplify | src/lib/picosat-965/picosat.c:5331-5459 | The formula is unchanged, level-0 assignments stay, and afterwards no unlocked stored clause is true on level 0 |
| Solver.Solver.FailedLiterals | src/lib/picosat-965/picosat.c:5038-5326 | Probing for failed literals adds only consequences and ends on level 0 |
| Solver.Solver.Probe | src/lib/picosat-965/picosat.c:5038-5326 | A probe that fails makes the negated literal true for good, or finds the empty clause; otherwise everything is taken back |
| Solver.Solver.Decide | src/lib/picosat-965/picosat.c:5874-5895 | Assumptions come first; free decisions only once all assumptions are taken over; a false assumption stops the search with a reason made of decisions |
| Solver.Solver.NextAssumption | src/lib/picosat-965/picosat.c:5828-5871 | Skips assumptions that are true, returns the first unassigned one as the next decision, or records the first false one |
| Undoing.AssumeUndo | src/lib/picosat-965/picosat.c:3095-3102 | Undoing below the level of the last assumption decision resets the account: every decision up to that level is still an assumption |
| Undoing.AssumeTake | src/lib/picosat-965/picosat.c:5828-5871 | Deciding on the next assumption keeps the account |
| Failing.Fanalyze | src/lib/picosat-965/picosat.c:3768-3881 | A failed assumption is explained by the clause over all decisions that its opposite rests on, which follows from just the reasons on the way there; it is left alone exactly when its reason is over decisions already |
| Solver.Solver.ExplainFailure | src/lib/picosat-965/picosat.c:3768-3881 | The explaining clause is stored and becomes the reason of the failed assumption, without changing any assignment |
| Rejustify.ExplainedDirect | src/lib/picosat-965/picosat.c:3768-3881 | With the explaining clause as its reason, the failed literal depends on decisions only |
| Verdict.FailedIsUnsat | src/lib/picosat-965/picosat.c:5828-5895 | If all decisions are assumptions and an assumption is false, clauses and assumptions have no common model |
| Verdict.CompleteIsModel | src/lib/picosat-965/picosat.c:3424-3433 | A complete assignment that propagation finds no fault with satisfies every clause the user added, those collected included |
| Verdict.NoZeroFalse | src/lib/picosat-965/picosat.c:5898-6010 | After complete propagation no clause the user added is falsified by level 0 |
| Verdict.SingleFailsAtZero | src/lib/picosat-965/picosat.c:5828-5871 | A single assumption that fails without a decision is false for good |
| Solver.Solver.constructor | src/lib/picosat-965/picosat.c:1239-1239 | A new solver is empty and in order, has done no work, and has the largest propagation limit |
| Solver.Solver.SetPropagationLimit | src/lib/picosat-965/picosat.c:7957-7960 | The limit is set, and nothing else changes |
| Solver.Solver.AddLit | src/lib/picosat-965/picosat.c:6844-6883 | A literal is appended to the clause being entered; an answered search is left behind first, with its assumptions, but not its formula |
| Solver.Solver.CloseClause | src/lib/picosat-965/picosat.c:6844-6883 | The clause entered becomes part of the formula, whatever repetitions, opposite literals or level-0 values it has |
| Solver.Solver.AddClause | src/lib/picosat-965/picosat.c:2618-2648 | The formula grows by exactly the clause, trivial or not, and the invariant is kept |
| Adding.TrivialClause | src/lib/picosat-965/picosat.c:2583-2615 | Drops repeated literals, and reports a clause trivial exactly when it contains opposite literals or one that is true for good |
| Solver.Solver.AddSimplified | src/lib/picosat-965/picosat.c:2280-2580 | An original clause is stored and attached, its false level-0 literals are resolved away, and what is left is assigned if it is one literal and ends everything if it is none |
| Solver.Solver.ShrinkStored | src/lib/picosat-965/picosat.c:2498-2531 | The clause that is left after level 0 is stored with just the clause and the units of its false literals as antecedents |
| Adding.AddedKeeps | src/lib/picosat-965/picosat.c:2280-2580 | Once the unit is assigned, whatever was added satisfies all invariants of propagation |
| Solver.Solver.Assume | src/lib/picosat-965/picosat.c:7105-7123 | The assumption is appended for the next search |
| Solver.Solver.ResetIncrementalUsage | src/lib/picosat-965/picosat.c:6465-6512 | Back to level 0 with all assumptions dropped and the formula kept |
| Solver.Solver.Deref | src/lib/picosat-965/picosat.c:7192-7217 | The value of a literal in the model found: 1 exactly if it holds, -1 if not, 0 for variables the solver does not know |
| Solver.Solver.ExtractAllFailedAssumptions | src/lib/picosat-965/picosat.c:6555-6608 | Just those assumptions are marked failed that the opposite of the failed one rests on, through any number of reasons; together they are unsatisfiable with the formula |
| Solver.Solver.FailedAssumption | src/lib/picosat-965/picosat.c:7307-7324 | Answers no once the empty clause was derived, and otherwise whether the opposite of the failed assumption rests on this one; those for which it does are unsatisfiable with the formula |
| Failing.Blame | src/lib/picosat-965/picosat.c:6555-6608 | Marks just what the failed assignment rests on: everything that reasons lead to, and nothing else |
| Failing.BlamedRefute | src/lib/picosat-965/picosat.c:6555-6608 | The blamed assumptions and the formula have no common model |
| Solver.Solver.EmptyMeansUnsat | src/lib/picosat-965/picosat.c:5898-6010 | Once the empty clause was derived no assumptions whatever have a model |
| Core.ClausalCore | src/lib/picosat-965/picosat.c:6040-6168 | Unless a literal and its opposite are both assumed: the original clauses flagged are just those that antecedents lead to from the empty clause or from the reason of the failed assumption; they are clauses of the user, and by themselves unsatisfiable once the empty clause was derived, otherwise together with the assumptions; the counter counts them |
| Solver.Solver.FailedReason | src/lib/picosat-965/picosat.c:3768-3800 | A failed assumption has no reason only if its opposite was assumed, too; otherwise its reason is over opposites of other assumptions |
| Core.OppositesHaveNoReason | src/lib/picosat-965/picosat.c:6070-6078 | If every assumption goes together with the clauses and the assumptions over other variables, and they are unsatisfiable all the same, opposites are among them, and the failed one has no reason: the assertion of the traversal fails |
| Core.OppositesAlone | src/lib/picosat-965/picosat.c:6070-6078 | The smallest such input: no clauses, and a literal assumed together with its opposite |
| Core.Traverse | src/lib/picosat-965/picosat.c:6040-6168 | The traversal of the antecedent chains ends, flags just the original and the learned clauses that the root was derived from, and the flagged originals imply the root |
| Core.ReadChain | src/lib/picosat-965/picosat.c:6096-6115 | Reading a stored chain byte by byte gives its antecedents |
| Zhain.RoundTrip | src/lib/picosat-965/picosat.c:2127-2183 | Decoding the 7-bit delta encoding of any strictly increasing sequence gives the sequence back, whatever follows the terminator |
| Zhain.DecodeWords | src/lib/picosat-965/picosat.c:6096-6115 | The decoder on 32-bit words returns exactly the encoded sequence for indices below 2^31 |
| Zhain.DeltasBytes | src/lib/picosat-965/picosat.c:2127-2145 | No byte before the terminator is zero |
| Zhain.EncodeSorted | src/lib/picosat-965/picosat.c:2148-2183 | The encoding loop produces the encoding |
| Zhain.AddZhain | src/lib/picosat-965/picosat.c:2148-2183 | The chain built from the antecedents decodes to exactly their set |
| Zhain.DeleteZhainSize | src/lib/picosat-965/picosat.c:1400-1411 | Running to the first zero byte gives the size to free |
| Zhain.FreedIsAllocated | src/lib/picosat-965/picosat.c:1400-1411 | That size is the size allocated |
| Subsets.Mss | src/lib/picosat-965/picosat.c:7568-7636 | For a satisfiable formula the result is a maximal satisfiable subset of the candidates, for any other it is empty, although the scan jumps over candidates that hold in a model and swaps them to the front; the array is permuted, all accesses are in bounds, the formula is unchanged |
| Subsets.PendingAssumptionsMislead | src/lib/picosat-965/picosat.c:7568-7636 | Why an answered search must come before: for any three literals and one clause over two of them, with all three still pending, the first question comes out as unsatisfiable although its candidate is in every maximal subset |
| Subsets.NextMss | src/lib/picosat-965/picosat.c:7702-7805 | For a satisfiable formula returns a maximal satisfiable subset, and for one that is unsatisfiable without being known to be at most the empty subset; the complement is the correcting set, and adds exactly the clause of that complement; null only if the clauses have become unsatisfiable, and always once blocking clauses made them so |
| Subsets.Humus | src/lib/picosat-965/picosat.c:7829-7909 | Repeated calls meet every maximal satisfiable subset of the assumptions exactly once and then stop; the union of the complements and their number are returned |
| Subsets.BlockingIsExact | src/lib/picosat-965/picosat.c:7740-7805 | The blocking clause removes exactly the subset found: no later one is lost, and none that is not maximal becomes maximal |
| Subsets.ComplementIsMcs | src/lib/picosat-965/picosat.c:7818-7826 | The complement of a maximal satisfiable subset is a minimal correcting set |
| Subsets.SomeMss | src/lib/picosat-965/picosat.c:7829-7909 | As long as the formula is satisfiable there is a maximal satisfiable subset left to find |
| Mus.MusAssumptions | src/lib/picosat-965/picosat.c:7378-7565 | For every list of assumptions: a result is unsatisfiable with the formula, no member can be left out, even though one failed search drops several candidates at once, and the solver is in the matching unsatisfiable state. The assertion on failed candidates (7483) can fail only if two assumptions are over one variable and the formula is unsatisfiable with all assumptions but one of the two; it must fail, unless the propagation limit comes first, when all assumptions over other variables are satisfiable with the formula, except for two opposites the formula allows one by one |
| Mus.DropAsserted | src/lib/picosat-965/picosat.c:7476-7493 | After a successful drop every candidate tried before compares as expected; the assertion can fail for the candidate dropped, and then only because another candidate over its variable was left |
| Mus.ShrinkDrop | src/lib/picosat-965/picosat.c:7476-7529 | Dropping all candidates that did not fail at once leaves an unsatisfiable set in which each earlier candidate that was left is still needed |
| Mus.PairEndsOnlyIf | src/lib/picosat-965/picosat.c:7476-7493 | Inputs on which the assertion fails: a variable that every unsatisfiable part needs, assumed twice. There is a minimal subset to return only if the two are opposites and the formula is satisfiable with each of them; never if one literal is assumed twice |
| Mus.OppositesPassIff | src/lib/picosat-965/picosat.c:7476-7493 | With a satisfiable formula and just two opposites assumed, that condition also decides whether the assertion can fail: without clauses x and not x pass |
| Mus.DistinctNeverClash | src/lib/picosat-965/picosat.c:7476-7493 | Assumptions over distinct variables never make the assertion fail |
| Mus.NeededFails | src/lib/picosat-965/picosat.c:7378-7565 | A candidate whose removal makes the rest satisfiable is needed in every smaller unsatisfiable set as well |
| Subsets.Absorb | src/lib/picosat-965/picosat.c:7568-7636 | All later candidates that hold in the model are taken over at once |
| Heap.Decisions.Sdecide | src/lib/picosat-965/picosat.c:5799-5825 | Returns an unassigned variable that no unassigned variable outranks, keeps the heap in order and every unassigned variable on it, and never pops an empty heap |
| Heap.Decisions.Hup | src/lib/picosat-965/picosat.c:1768-1800 | Moving an entry up restores the order between parents and children; positions and slots stay inverse |
| Heap.Decisions.Hdown | src/lib/picosat-965/picosat.c:2707-2759 | Moving an entry down restores the order |
| Heap.Decisions.Hpop | src/lib/picosat-965/picosat.c:2769-2789 | Takes the first entry off; the rest is the same set, in order |
| Heap.Decisions.Hpush | src/lib/picosat-965/picosat.c:2792-2802 | Adds one variable, in order |
| Heap.Decisions.Unassign | src/lib/picosat-965/picosat.c:2946-3028 | A variable that is no longer assigned is on the heap again |
| Heap.Decisions.IncScore | src/lib/picosat-965/picosat.c:3449-3478 | Only the score of the one variable grows, all scores and the increment are rescaled when it exceeds the limit, and the heap stays in order whenever that rescaling is weakly monotone; on level 0 and while simplifying nothing happens |
| Heap.BumpIsSum | src/lib/picosat-965/picosat.c:3462-3470 | The new score is the sum with the increment, rounded down, so that the variable ranks no lower; its flags and all other variables stay |
| Heap.Decisions.Vrescore | src/lib/picosat-965/picosat.c:3436-3446 | Rescoring keeps the order whenever it is weakly monotone on the scores present |
| Heap.RescoreIsMonotone | src/lib/picosat-965/picosat.c:3436-3446 | Rescoring by a factor turns no two scores around if and only if no score is lost in it above a nonzero one that is kept |
| Heap.RescoreByDefault | src/lib/picosat-965/picosat.c:1230-1231 | With the factor of the solver, 2^-90, this is so if and only if no variable scores exactly 2^-14 while another one has a smaller score that is not zero |
| Heap.TopIsBest | src/lib/picosat-965/picosat.c:5799-5825 | In an ordered heap nothing outranks the first entry |
| Heap.CompareIsNotLower | src/lib/picosat-965/picosat.c:1744-1765 | The comparison of the code refines the order by importance and score, of equals the one at the lower address is greater |
| SoftFloat.AddIsTruncatedSum | src/lib/picosat-965/picosat.c:779-811 | The sum is the exact sum cut off to 25 significant bits, or infinity beyond the range |
| SoftFloat.AddCommutes | src/lib/picosat-965/picosat.c:779-811 | Addition is commutative |
| SoftFloat.AddIsMonotone | src/lib/picosat-965/picosat.c:779-811 | The sum is never below an operand and grows with its operands |
| SoftFloat.MulIsRight | src/lib/picosat-965/picosat.c:814-858 | For all operands: the product is the exact product cut off to 25 significant bits, or infinity, if and only if an operand is zero, or the exponents add up to a representable one and the product is not the lost one (smallest significand at the smallest exponent, which reads as zero), or they add up to one less and the carried product is just the smallest number |
| SoftFloat.MulIsZero | src/lib/picosat-965/picosat.c:814-858 | The product reads as zero if and only if an operand is zero or the product is lost |
| SoftFloat.MulIsMonotoneIff | src/lib/picosat-965/picosat.c:814-858 | For all operands, larger factors give no smaller product, if and only if their product is not lost, or the smaller one is zero or lost, too |
| SoftFloat.MulNotMonotone | src/lib/picosat-965/picosat.c:814-858 | A concrete pair for which a larger factor gives a smaller product |
| SoftFloat.MulTooSmall | src/lib/picosat-965/picosat.c:829-833 | A concrete pair whose product could be represented after the carry, while the code, which tests the exponent before, returns the smallest number, about half as large |
| SoftFloat.Base2Flt | src/lib/picosat-965/picosat.c:744-776 | A value above the smallest significand is cut off to 25 bits or becomes infinite; a smaller one becomes the smallest number; zero, and the one value that coincides with it, become zero |
| Luby.Luby | src/lib/picosat-965/picosat.c:4840-4850 | The recursion on 32-bit words ends for every position from 1 to 2^31 - 1 without overflow and computes the Luby sequence |
| Luby.LubyIsPower | src/lib/picosat-965/picosat.c:4840-4850 | Every value is a power of two and at most half of the next position |
| Luby.SumOfLuby | src/lib/picosat-965/picosat.c:4840-4850 | The first 2^k - 1 values add up to k * 2^(k-1) |
| RandomDecide.Rng.Range | src/lib/picosat-965/picosat.c:5645-5660 | The random number lies between the bounds, also when the size of the range wraps around, and is the scaled state of the generator, which moves on by one |
| RandomDecide.ScaleCovers | src/lib/picosat-965/picosat.c:5645-5660 | Scaling divides the numbers of the generator into one interval for each value of the range, and none is empty |
| RandomDecide.Gcd | src/lib/picosat-965/picosat.c:5733-5756 | The result divides both arguments and is a combination of them |
| RandomDecide.Visits | src/lib/picosat-965/picosat.c:5759-5796 | A stride coprime to the number of variables reaches every index |
| RandomDecide.Walk | src/lib/picosat-965/picosat.c:5759-5796 | The walk with a coprime stride and conditional subtraction ends on an unassigned variable whenever there is one |
| RandomDecide.Rdecide | src/lib/picosat-965/picosat.c:5733-5796 | A random decision is taken exactly when the first number scales to two; it is the variable the second number picks if that is unassigned, and otherwise the first unassigned one on the walk with the largest stride coprime to the number of variables up to the one the third number picks; the search for the stride ends |
| Journal.ReadBackIff | src/lib/journal.c:76-266 | For every record of a valid kind: it is read back, whatever follows it in the file, if and only if it has at most 255 parameters, its size fits 32 bits and its parameters can be loaded |
| Journal.RoundTrip | src/lib/journal.c:76-266 | A written record is read back and the reader stops right behind it |
| Journal.NoStrictPrefix | src/lib/journal.c:195-266 | A record cut short at any byte is not accepted |
| Journal.TooManyParams | src/lib/journal.c:76-266 | A record with 256 parameters is written, and reading it back runs into the assertion |
| Journal.Journal.Write | src/lib/journal.c:76-124 | For every pattern of interrupted and short writes, and a crash after any byte: either the file gained exactly the encoding of the record, or a strict prefix of it |
| Journal.BuildMessage | src/lib/journal.c:76-103 | The buffer filled parameter by parameter is the encoding |
| Journal.Journal.DoRead | src/lib/journal.c:164-193 | For every pattern of interrupted and short reads: exactly the bytes asked for, or failure at the end of the file |
| Journal.Journal.JournalRead | src/lib/journal.c:195-266 | Gives exactly what decoding the rest of the file gives, unless one of the calls made on the way fails, and then the record is broken |
| Canary.MagicHalves | src/lib/journal.c:38-43 | The canary combined with both halves of the length gives back the constant of the format |
| Canary.MagicTellsBytes | src/lib/journal.c:38-43 | Another value of one byte of the length gives another canary |
| Canary.OneByteIsNoticed | src/lib/journal.c:205-222 | If data are accepted as a record, then changing any one byte of the canary, of the size, or of the canary at the end makes them broken |
| Canary.ZerosAreBroken | src/lib/journal.c:205-209 | Data of zeros only are not a record |
| Canary.FreshBytes | src/lib/journal.c:78-98 | A new journal, byte by byte |
| Canary.RecordBytes | src/lib/journal.c:78-98 | A record with two parameters, byte by byte |
| Arithmetic.XorBit | src/lib/journal.c:42-43 | A bit of the exclusive or is set if and only if just one of the two bits is |
| Journal.ReadParams | src/lib/journal.c:233-255 | The parameters are cut out of the data by their length words |
| Journal.Journal.Recover | src/lib/journal.c:268-285 | Returns exactly the completely written records in order and truncates the file to exactly their encoding; a read that fails for good may end it earlier, at a record boundary |
| Journal.Journal.Fresh | src/lib/journal.c:158-162 | A new journal starts with a START record; an existing one is left alone |
| Journal.Journal.Finish | src/lib/journal.c:287-302 | A FINISH record is appended; the file goes unless it is to be kept |
| Events.Events.EventsWait | src/lib/events.c:683-787 | For every behaviour of the rest of the world, also when callbacks start commands or wait themselves: on normal return every command given was called back exactly once with its status and outputs, and every child given was reported; nothing is left in the queue. Registrations know just what the passes meanwhile brought them. It gives up only when no pass is left, and then at once or with one of the ids stuck: an end of it has not come, or its own callback is the one that waits |
| EventFlow.StuckMeansMissing | src/lib/events.c:683-706 | What keeps an id stuck after a wait is in none of the passes since it was registered: the end of its process, or of one of its outputs |
| EventFlow.ActiveIsStuck | src/lib/events.c:761-785 | With an empty queue, an id that is still found lacks one of its ends, or it is its own callback that waits |
| EventFlow.KilledAsSent | src/lib/events.c:735-746 | A callback is told of termination or kill only if that timeout of its command fired, and of none, with the status deciding, if neither did |
| EventFlow.ToldBoth | src/lib/events.c:683-787 | What registrations know after two stretches of a run is what the events of both brought them, the first end of each kind counting |
| Events.Events.LoopOnce | src/lib/events.c:692-706 | After a pass each registration knows just what the pass brought it: the status of its process, the data of its outputs, each as first reported, and, unless its end was reported before, the last signal its timeouts sent; nobody else is touched |
| EventFlow.ReapFelt | src/lib/events.c:188-204 | An ended process is told to the one registration that waits for it |
| EventFlow.OutputFelt | src/lib/events.c:415-452 | An ended output is told to its own command only |
| EventFlow.Unfelt | src/lib/events.c:173-205 | Events of processes that nobody watches, of closed buffers and of commands that ended change no record |
| EventState.CalledAtMostOnceAndLate | src/lib/events.c:382-403 | In every reachable state a command was postponed and called back at most once, and only after the end of stdout, the end of stderr and the end of the child; it was told the status reaped, the signal last sent and exactly what the streams carried |
| EventState.NobodyIsForgotten | src/lib/events.c:683-754 | When the queue is empty, every command to which these three things have happened was called back |
| EventState.InactiveIsOver | src/lib/events.c:764-785 | An id that is not found any more names a command that was called back, or a child that was reported, even if address and pid are in use again |
| Events.Events.DeliverOne | src/lib/events.c:719-754 | The first postponed callback runs; the lookups it asserts never fail |
| Events.Events.CallCommand | src/lib/events.c:731-750 | The command is found, called with its result, and freed after its callback, which runs until it returns, whatever it does |
| Events.Events.ReportChild | src/lib/events.c:724-730 | The child is found, its callback runs with its status, and its entry is replaced by the last one; nothing else changes |
| EventState.OutputKeeps | src/lib/events.c:415-452 | The end of stdout keeps the invariant: its contents are kept for the callback, the command is queued exactly if everything else has ended, and nothing that happened is undone |
| EventState.ErrorKeeps | src/lib/events.c:415-452 | The same for stderr |
| EventState.InputKeeps | src/lib/events.c:454-461 | The end of the input keeps the invariant, also during the callback of the command, and queues nothing |
| EventState.CommandMoves | src/lib/events.c:382-391 | A step of one command keeps the invariant once its record and its place in the queue are right again |
| Events.Events.ChldEvent | src/lib/events.c:173-205 | Every registration that waits for one of the processes gets the first status reported for it, its child is queued, and others are ignored |
| Events.Events.WatchChild | src/lib/events.c:220-264 | A child not watched before is appended to the table |
| EventState.WatchableIff | src/lib/events.c:220-222 | A pid that no process has can be watched, without that assertion failing, exactly if no report about it is waiting to be delivered |
| EventState.PidStaysWatched | src/lib/events.c:220-222 | After any command was started and its child waited for, the pid may be handed out again but is still watched: registering it then fails the assertion |
| Events.Events.RunCommand | src/lib/events.c:477-513 | A command with open outputs, a watched child and a place in the table; nothing else changes |
| EventState.SignalKeeps | src/lib/events.c:340-347 | Sending a signal, at any time, keeps the invariant, and the record knows the last one sent while the command ran |
| Events.Events.CommandFree | src/lib/events.c:357-380 | The command is replaced in the table by the last one and freed |
| Events.Events.ChildLookup | src/lib/events.c:149-154 | Finds the entry of a pid, or the end of the table if there is none |
| Events.Events.CommandLookup | src/lib/events.c:648-657 | Finds a command exactly if address and pid belong together in the table |
| EventState.DeliverKeeps | src/lib/events.c:724-730 | Delivering a report keeps the invariant and undoes nothing that happened |
| EventState.FreeKeeps | src/lib/events.c:357-380 | Freeing a command after its callback keeps the invariant |
| EventState.ReapKeeps | src/lib/events.c:186-204 | Reaping a child keeps the invariant |
| UriHeap.CountIsReach | src/lib/uri.c:92-121 | The reference count of a node is the number of list heads of live URIs from which it is reached |
| UriHeap.AllocatedIsReached | src/lib/uri.c:110-121 | A node is allocated exactly as long as some URI reaches it |
| UriHeap.NothingLeaks | src/lib/uri.c:258-269 | Once no URI held by a user is left, all URIs and nodes are freed |
| UriHeap.ReachedStays | src/lib/uri.c:110-121 | A node reached from another URI survives, and that list stays as it is |
| Uri.Uris.UriFree | src/lib/uri.c:258-269 | Frees the URI, its signature URI and the nodes nobody else reaches, each once; all other URIs and their lists stay |
| Uri.Uris.ListDealloc | src/lib/uri.c:110-121 | Every node of the list loses one user; the nodes that had no other are freed with what they hold; all other lists stay |
| Uri.Uris.ListRefup | src/lib/uri.c:92-98 | Every node of the list, and no other, gains one user |
| UriChange.PrependKeeps | src/lib/uri.c:100-108 | A fresh node with one user in front of a list keeps all counts right |
| Uri.Uris.NewUri | src/lib/uri.c:230-253 | A new URI has both lists of its parent, or none, and no signature; everything else is as it was; nothing is kept of a malformed one |
| Uri.Uris.Inherit | src/lib/uri.c:239-245 | One list is shared with the parent and its counts are right again |
| Uri.Uris.AddOne | src/lib/uri.c:558-579 | A local, well-formed URI is put in front of the one list, and nothing else changes; otherwise nothing changes at all |
| Uri.Uris.DropAll | src/lib/uri.c:626-632 | The one list becomes empty; lists of other URIs that share nodes stay |
| Uri.Uris.SetSig | src/lib/uri.c:649-662 | The former signature URI is freed; the new one shares the certificates and has no keys; an error leaves none |
| Uri.Uris.DropSignature | src/lib/uri.c:452-455 | The signature URI is freed after verification |
| Uri.Uris.Collect | src/lib/uri.c:525-548 | From what the nodes held before and what could be fetched: the array holds, in list order, what was fetched for each node that held a URI, else what the node had read before if anything, then a null and nothing else; each URI held is freed once, and what was read stays in the shared node |
| UriReading.ContentsOfOne | src/lib/uri.c:532-547 | A node that held a URI shows what was fetched for it; otherwise what it had read before; otherwise it has no place in the array |
| UriReading.ContentsInOrder | src/lib/uri.c:525-548 | The nodes stand in the order of the list, wherever it is divided |
| UriReading.ReadOnce | src/lib/uri.c:532-541 | Collecting once more gives the same, whatever could be fetched by then |
| Uri.Uris.ReadNode | src/lib/uri.c:532-541 | One node keeps what was read, and the URI it held is freed; nothing else changes |

## Left out

Solver:

- Heuristics: scores, activities, glue, phases and the reduction schedule choose what to do next but cannot make an answer wrong; in the search the variable decided on, the clauses collected among those that may be, when to reduce, when a simplification that may happen does, and when a restart that is due is skipped (the agility of the trail) are arbitrary. Counters of work, conflicts and restarts are not wrapped at 64 or 32 bits. The heap and the random decision are modelled on their own and not plugged into the search.
- Solver.Solver.FailedLiterals: which literals are probed, and the lifting of literals implied by both phases (picosat.c 5206-5295), are not modelled.
- Solver.Solver.Probe: probes one arbitrary literal.
- The heap's re-sorting by Jeroslow-Wang scores during probing, and the flag that keeps fixed variables from rising meanwhile.
- Contexts (push and pop), internal variables, all-different constraints, interrupt callbacks, partial models, statistics, tracing output and the memory manager.
- Unit clauses sit on no watch list in the model; in the source they are linked, but true for good.
- A learned clause is stored after the jump instead of before it; storing looks only at the order of levels, which the jump does not change for its false literals.
- The sorting macros are insertion sorts, and unlinking collected clauses is a filter on the lists.
- The check of an empty propagation queue after simplification is not repeated: the contract of simplification says that it is empty.
- Subsets.Mss: needs an answered search before it, as picosat.h 507-516 demands; with assumptions still pending from before the first search the code may return a subset that is not maximal (see PendingAssumptionsMislead).
- Subsets.NextMss: picosat.h says that a correcting set contains each literal once even if it was assumed repeatedly; the code pushes one entry for each assumption, and the model follows the code and speaks of the set of literals.
- Mus.MusAssumptions: leaves out the mode that fixes literals for good. Between the condition under which the assertion can fail and the one under which it must, whether it does depends on which assumptions the search blames, hence on clauses learned and collected before; so each goes one way only. Opposites may pass (see OppositesPassIff).
- Subset computations report failure when the propagation limit stops a search, where the source runs into an assertion.
- Core.ClausalCore: assumes that no literal is assumed together with its opposite. The condition goes one way only: with opposite assumptions the failed one may still have a reason, and whether it has depends on what propagation finds before the assumption is decided, hence on clauses learned and collected in earlier searches. OppositesHaveNoReason gives inputs on which it never has one. Clause indices are taken to be below 2^31.
- Subsets.Humus: the union is a set of literals; the zero-terminated array and the callback are not modelled.

Journal:

- Integers are stored little-endian, as on the machines the updater runs on.
- Loading a parameter in Lua is an arbitrary predicate that accepts what was dumped.
- The statements of journal.txt that START comes first and FINISH last do not hold of this code and are not modelled: a crash while starting, or writing after a kept FINISH, breaks them.
- Journal.Journal.Recover: a device error while reading ends it at an earlier record boundary, which the source cannot tell from a broken record.

Event loop:

- Cancelling watched commands, and raw child callbacks that use the event loop: the source keeps the address of a table entry that may move.
- Signals, fork, pipes and libevent itself; timeouts may fire at any time and any number of times.
- Events.Events.WatchChild: runs that fail its assertion (see PidStaysWatched) end there and are not continued.
- Events.Events.ReportChild: the callback of a raw child does nothing to the event loop.
- Addresses of commands may be handed out again after free, and are in the model.
- A timeout that fires after a child was reaped and before that was reported still records its signal, as in the source.

URIs:

- Parsing and normalising URIs, downloads and signatures: whether a URI is well formed, whether it is local, and what reading it gives are parameters.
- The sequence of finishing a URI and verifying it; only the freeing of the signature URI is modelled.
- Uri.Uris.NewUri: takes an identity that is not in use, also where the source frees a URI and allocates another one within the same call.
- Uri.Uris.Collect: clears the field that holds the URI of a node before freeing the URI; the source clears it afterwards.
