# Verified model of the regex engines and of the campaign driver

The repository holds five regex matchers that are meant to give the same non-overlapping,
leftmost-first, greedy spans: a backtracker with continuations, a Pike virtual machine, a
literal-prefix search over that machine, and two lazily built DFAs whose tables and cache
outlive a call. Around them sit a pattern parser, two binary file formats, two one-line
record formats, and a campaign driver that promotes an optimised candidate only on
evidence. This project models these in Dafny and proves what they promise, for every
pattern, every input and every run.

The tower, bottom up:

- `Wrappers`, `Widths`: options, results, integer sizes.
- `Ast`, `Syntax`, `Parser`, `Grammar`, `Printer`: patterns, the recursive-descent parser, the
  grammar whose texts are just those it accepts, byte class by byte class, and a printer it
  inverts.
- `Semantics`: what a pattern matches, and its ends in priority order; the two agree.
- `Naive`: the backtracker is the first accepted end of that order.
- `Program`, `Emit`, `Paths`: the compiler, as the source patches it and as a recursive
  definition, and its correctness.
- `Closure`, `Threads`, `PikeVm`, `PikeCorrectness`: the machine, what a list of its threads
  is worth, one turn keeps that, and so the answer is right, leftmost and linear in work.
- `Epsilon`, `Sealed`, `Blocked`, `Prefer`, `Tail`, `TailVisits`, `Priority`: on orderly
  patterns the machine prefers the end the backtracker prefers.
- `Paint`, `Spells`, `Idle`, `Gates` (`Gate.dfy`), `Spots` (`Spot.dfy`), `Witness`, `Exact`:
  on the other loops it does not, for some byte classes; so being orderly is exact, loop by
  loop. `Disorder`, `Shape` and `Anchored`: two such patterns at work, what shape alone
  decides, and what anchors change.
- `Scan`, `Prefilter`, `Engines`: driving a search over the input, the literal search, and
  the matchers.
- `DfaSpec`, `DfaTables`, `LazyDfa` (`Dfa.dfy`), `Caches`, `Dispatch`: the DFA as a class
  whose tables always agree with the machine, the caches, and any run of calls.
- `Utf8`, `Corpus`, `CorpusFiles`, `Layout`: the file formats, and where each byte stands.
- `Records`, `Wire`, `RecordTexts`: the record formats, and which texts denote a record.
- `CampaignPlan`, `CampaignState`, `Campaign`: a valid plan, a safe record of what was asked of
  the outside world, and a run against any world: each question takes the world's next answer,
  and any answer may be a failure.

Three things the proofs turned up:

- The backtracker and the compiled program do **not** agree on every pattern. On `ab` the
  pattern `(a?(|b))*` gives the backtracker the span 0..2 and the machine 0..1; on `b` the
  pattern `(a*|b)+` gives 0..1 and 0..0. Both repeat a body that can match empty and tries
  the empty match before something else. `Orderly` patterns always agree: those without a
  nullable repeated body, and those whose nullable bodies try the empty match late enough,
  like `(a*)*`, `(a?|b)*` and `(|b)*`. The condition looks only at the shape of the tree,
  and loop by loop it is exact: an anchor-free pattern is orderly if and only if every `*`
  and `+` in it, taken by itself, makes the two agree on all inputs whatever its byte
  classes are (`Exact.OrderlyExact`). As part of a larger pattern a loop that does not may
  never be tried, as in `(|L)`, so the whole may agree all the same (`Exact.MaskedAgrees`).
  Both matchers always find a match at the same first place, and both ends are ends of
  real matches.
- Inside `[...]` an escape drops the byte that follows the backslash and takes its meaning
  from the one after that (`crates/regexbench/src/lib.rs:344-347`,
  `crates/regexbench/src/lib.rs:375-377`), against the documentation at
  `crates/regexbench/src/lib.rs:325-326`. So `[\d]` is refused, and a class of digits needs
  two backslashes (`Printer.EscapeInBrackets`). The model follows the code.
- The guard `s < curr_starts.len()` of the DFA (`crates/regexbench/src/flat_dfa.rs:272-276`)
  never fails while the provenance table stays below 2^32 entries (`LazyDfa.SlotFacts`), which
  it does for every program of up to 1,677 instructions. The 64-bit overflow checks of the
  campaign's timeout budget never fire (`CampaignPlan.BudgetFits`).

## Model

| member | source | states |
|---|---|---|
| Syntax.Parse | crates/regexbench/src/lib.rs:226-236 | every pattern the grammar yields has at least two parts in each alternation and concatenation |
| Syntax.AltMore | crates/regexbench/src/lib.rs:239-250 | branches parsed after a bar stay inside the text and are proper |
| Syntax.ConcatAt | crates/regexbench/src/lib.rs:253-268 | a run of pieces ends inside the text, at a bar, a closing parenthesis or the end, with a proper node |
| Syntax.ProperWellFormed | crates/regexbench/src/lib.rs:239-268 | what the parser makes has no empty alternation |
| Parser.RangeClass | crates/regexbench/src/lib.rs:73-81 | a byte is in the class if and only if it lies between the bounds, bounds included |
| Parser.UnionClass | crates/regexbench/src/lib.rs:109-114 | a byte is in the result if and only if it is in either class |
| Parser.NegateClass | crates/regexbench/src/lib.rs:116-121 | a byte is in the result if and only if it is not in the class |
| Parser.Parser.ParseRegex | crates/regexbench/src/lib.rs:226-236 | the parser on a cursor computes the grammar's parse of the whole text, errors included |
| Parser.Parser.ParseAlt | crates/regexbench/src/lib.rs:239-250 | node or error of the grammar, with the cursor where the parse ends |
| Parser.Parser.ParseConcat | crates/regexbench/src/lib.rs:253-268 | node or error of the grammar, with the cursor where the parse ends |
| Parser.Parser.ParseRepeat | crates/regexbench/src/lib.rs:271-288 | at most one quantifier is applied to the atom |
| Parser.Parser.ParseAtom | crates/regexbench/src/lib.rs:291-323 | each kind of atom, and the error of each byte that starts none |
| Parser.Parser.ParseClass | crates/regexbench/src/lib.rs:327-371 | the class loop: negation, a first `]`, ranges, escapes as the code reads them, and its errors |
| Parser.Parser.ParseEscape | crates/regexbench/src/lib.rs:375-394 | one byte is dropped and the next gives the class, or the error |
| Parser.NewRegex | crates/regexbench/src/lib.rs:184-192 | a compiled pattern keeps its text and the tree that text parses to |
| Grammar.ParseExact | crates/regexbench/src/lib.rs:226-399 | a text is the pattern of this tree if and only if it is one of the grammar: branches between bars, pieces in a row, an atom with at most one quantifier, and atoms whose bytes are listed outright, escapes and bracket items included |
| Grammar.ClassParses | crates/regexbench/src/lib.rs:291-394 | a text that is a dot, a literal, an escape or a bracketed list is the pattern of just the bytes it stands for |
| Grammar.RangeTexts | crates/regexbench/src/lib.rs:327-371 | `[lo-hi]` is the bytes from lo to hi, `[^lo-hi]` all the others, and out of order it is refused |
| Printer.RoundTrip | crates/regexbench/src/lib.rs:198-399 | the parser inverts the fully parenthesising printer on every proper pattern; the text is ASCII, hence UTF-8, where no class takes the upper 128 bytes apart |
| Printer.ParserMakes | crates/regexbench/src/lib.rs:198-399 | a tree is the parse of some ASCII text if and only if its alternations and concatenations have at least two parts and no class takes the upper 128 bytes apart |
| Printer.TextMakes | crates/regexbench/src/lib.rs:397-399 | the pattern of a UTF-8 text is proper, and no class of it takes the bytes from 0xF5 on apart, which no such text holds |
| Printer.PrintParses | crates/regexbench/src/lib.rs:239-288 | a printed pattern parses back wherever it stands as a whole group, up to exactly its end |
| Printer.BracketParses | crates/regexbench/src/lib.rs:327-371 | every non-empty byte class can be written between brackets |
| Printer.EscapeInBrackets | crates/regexbench/src/lib.rs:340-347 | between brackets one backslash before `d` drops the `d` and swallows the bracket, so the class has no end; two backslashes give the digits |
| Semantics.EndsExact | crates/regexbench/src/naive.rs:23-106 | the priority-ordered ends are exactly the declarative matches: the zero-progress guard loses no end |
| Semantics.MatchesInRange | crates/regexbench/src/naive.rs:23-106 | a match ends between its start and the end of the input |
| Semantics.NullableExact | crates/regexbench/src/lib.rs:165-174 | a pattern is called nullable if and only if somewhere it matches the empty string |
| Naive.MatchNode | crates/regexbench/src/naive.rs:23-72 | continuation passing is ordered enumeration: the answer is the first end, in priority order, that the continuation accepts |
| Naive.MatchSeq | crates/regexbench/src/naive.rs:75-87 | the same for a concatenation and its remaining parts |
| Naive.MatchStar | crates/regexbench/src/naive.rs:91-105 | the same for a star, with its guard against rounds without progress |
| Naive.MatchBranches | crates/regexbench/src/naive.rs:50-57 | the same for branches tried in turn |
| Naive.FindFrom | crates/regexbench/src/naive.rs:117-127 | the loop over starts finds the least start that has a match, with its preferred end |
| Naive.LeftmostEndCorrect | crates/regexbench/src/naive.rs:117-127 | that span is a match, none starts before it, and there is none only if there is no match at all |
| Program.CompileWellFormed | crates/regexbench/src/thompson.rs:57-66 | every jump and split is patched to an instruction, `Match` is the last instruction and the only accept, and the size is known |
| Program.CompileNoAsserts | crates/regexbench/src/flat_dfa.rs:54-61 | the routing test on the tree says exactly whether the program has an assertion |
| Emit.NewProgram | crates/regexbench/src/thompson.rs:57-66 | pushing and patching instructions yields the recursively defined program |
| Emit.Emitter.Emit | crates/regexbench/src/thompson.rs:85-156 | emitting a node appends its code at the current address and changes nothing before it |
| Emit.Emitter.EmitStar | crates/regexbench/src/thompson.rs:127-136 | the loop of a star, patched |
| Emit.Emitter.EmitPlus | crates/regexbench/src/thompson.rs:137-145 | the loop of a plus, patched |
| Emit.Emitter.EmitQuest | crates/regexbench/src/thompson.rs:146-154 | the optional body, patched |
| Emit.Emitter.EmitBranches | crates/regexbench/src/thompson.rs:96-126 | appends the branches of an alternation, each split and jump patched to its target |
| Emit.Emitter.PatchJumps | crates/regexbench/src/thompson.rs:120-125 | every recorded jump is set to the end, and nothing else changes |
| Paths.CompileCorrect | crates/regexbench/src/thompson.rs:57-156 | the compiled program has an execution from its start at i to `Match` at j if and only if the pattern matches i..j |
| Paths.MatchRuns | crates/regexbench/src/thompson.rs:85-156 | a match of a fragment is an execution through its code |
| Paths.RunMatches | crates/regexbench/src/thompson.rs:85-156 | an accepting execution that enters a fragment's code leaves it at its end, having matched it |
| PikeVm.Seen.Reset | crates/regexbench/src/thompson.rs:173-179 | the stamped set is empty afterwards, also when the 32-bit generation wraps around |
| PikeVm.Seen.Mark | crates/regexbench/src/thompson.rs:182-188 | the instruction is a member afterwards, and the answer says whether it was new |
| Closure.VisitFacts | crates/regexbench/src/thompson.rs:193-223 | a finished depth-first visit is closed under epsilon edges and lists each ready instruction it has seen once |
| Closure.VisitFiltered | crates/regexbench/src/flat_dfa.rs:206-245 | having seen a closed set before changes a visit only by leaving that set out |
| Closure.VisitAfterClosed | crates/regexbench/src/flat_dfa.rs:206-245 | a visit that starts from a closed set is the plain closure, filtered, and ends closed |
| Closure.VisitModeFree | crates/regexbench/src/flat_dfa.rs:63-79 | without assertions the closure does not depend on the place in the input |
| Closure.VisitCallsBound | crates/regexbench/src/thompson.rs:193-223 | calls of `add_thread` are bounded by the roots and twice the newly seen instructions |
| PikeVm.AddThread | crates/regexbench/src/thompson.rs:193-223 | the threads added are the visit's ready instructions in order, and calls are counted |
| PikeVm.Step | crates/regexbench/src/thompson.rs:253-282 | one pass over the threads builds the next generation, up to the first `Match`, whose start it reports |
| PikeVm.Turn | crates/regexbench/src/thompson.rs:253-302 | one turn keeps the answer the machine will give, or is the last and has it, within 3n+1 calls |
| PikeVm.PikeFind | crates/regexbench/src/thompson.rs:231-305 | the loop computes the leftmost search (or, anchored, the search at one start) within the linear budget of calls |
| PikeVm.BudgetIsLinear | crates/regexbench/src/thompson.rs:231-305 | that budget is (3n+1) times the number of generations |
| PikeVm.CoversBound | crates/regexbench/src/thompson.rs:193-305 | a generation holds at most one thread for each instruction |
| Threads.AdvanceWorth | crates/regexbench/src/thompson.rs:253-282 | de-duplicating threads and dropping those behind a `Match` loses nothing of what the list is worth |
| Threads.AddRootWorth | crates/regexbench/src/thompson.rs:298-301 | seeding a start behind failing threads is worth that start on its own |
| Threads.TurnKeepsAnswer | crates/regexbench/src/thompson.rs:253-302 | advance, record and seed together keep the answer |
| PikeCorrectness.AnchoredCorrect | crates/regexbench/src/thompson.rs:225-305 | an anchored run finds something if and only if a match starts there, and then its end is a match's end |
| PikeCorrectness.PikeCorrect | crates/regexbench/src/thompson.rs:225-305 | the machine finds a span if and only if there is a match at or after the scan position; its start is the least and its end is real |
| Epsilon.ContainedWhole | crates/regexbench/src/thompson.rs:85-156 | in a compiled program epsilon edges leave a fragment only at its end, and that only if it is nullable |
| Sealed.CompileSealed | crates/regexbench/src/thompson.rs:85-156 | in a compiled program edges from outside a fragment, at any depth, enter it only at its beginning |
| Blocked.SplitWorth | crates/regexbench/src/thompson.rs:207-210 | a split is worth its first arm, followed without coming back to the split, or else its second arm |
| Blocked.FailuresIgnored | crates/regexbench/src/thompson.rs:193-223 | instructions already seen that lead only to failures do not change what a closure is worth |
| Tail.EndsSplit | crates/regexbench/src/naive.rs:91-105 | where the empty match is tried last, trying the current position behind all other ends is the same |
| Priority.TailPrefers | crates/regexbench/src/thompson.rs:85-223 | through a fragment that tries the empty match last the machine goes on as the ordered ends do |
| Priority.FrontPrefers | crates/regexbench/src/thompson.rs:85-223 | so it does, whatever was seen on the way, through the body of a star that tries the empty match last only once something was consumed |
| Priority.NodePrefers | crates/regexbench/src/thompson.rs:85-223 | through any orderly fragment the machine prefers what the backtracker tries, in the same order |
| Priority.OrderlyEnd | crates/regexbench/src/thompson.rs:225-305 | for an orderly pattern the machine's end at a start is the backtracker's preferred end |
| Priority.OrderlyAgree | crates/regexbench/src/lib.rs:21-25 | for an orderly pattern the two searches give the same span from every position |
| Priority.StartsAgree | crates/regexbench/src/lib.rs:21-25 | for every pattern both find a span or neither does, at the same start, and both ends are real |
| Tail.NoNullableLoopIsOrderly | crates/regexbench/src/naive.rs:89-105 | patterns that repeat no nullable body are orderly |
| Idle.Sweep | crates/regexbench/src/thompson.rs:193-223 | a closure begun in code that accepts nothing of the next byte is worth what its end is worth, or nothing |
| Gates.GateStops | crates/regexbench/src/thompson.rs:193-282 | where only the code behind a split accepts the next byte, and the split's first arm leads to `Match`, the machine stops at the split |
| Gates.LatePrefix | crates/regexbench/src/thompson.rs:85-223 | a body that tries the empty match before a byte is left at once |
| Spots.MixedMid | crates/regexbench/src/thompson.rs:85-223 | so is one that does so after a byte, once that is consumed |
| Spells.MixedSpells | crates/regexbench/src/naive.rs:23-106 | with two byte classes such a body matches a run of the one and a run of the other |
| Spells.StarStops | crates/regexbench/src/naive.rs:91-105 | the backtracker's preferred end of a star is one from which the body matches nothing more |
| Witness.StarDiffers | crates/regexbench/src/naive.rs:58-61 | a star whose body tries the empty match too early: byte classes and an input on which the searches differ |
| Witness.PlusDiffers | crates/regexbench/src/naive.rs:62-66 | the same for a plus |
| Exact.LoopExact | crates/regexbench/src/lib.rs:21-25 | a loop around an orderly body agrees for all byte classes and inputs if and only if the body tries the empty match as late as the loop needs |
| Exact.OrderlyExact | crates/regexbench/src/lib.rs:21-25 | an anchor-free pattern is orderly if and only if each of its loops, by itself, agrees for all byte classes and inputs |
| Anchored.AnchorsHide | crates/regexbench/src/naive.rs:36-46 | a plus over `$` or a byte is not orderly, and yet agrees for all byte classes and inputs |
| Exact.MaskedAgrees | crates/regexbench/src/lib.rs:21-25 | behind an empty branch any pattern agrees, orderly or not |
| Tail.StarOfBranchesIsOrderly | crates/regexbench/src/naive.rs:50-61 | a star over any alternation is orderly where a star over each of its branches is |
| Disorder.DisorderMatters | crates/regexbench/src/naive.rs:58-66 | the two patterns named above are what their texts parse to, neither is orderly, and on each the two matchers give different spans |
| Shape.EveryShapeCanAgree | crates/regexbench/src/lib.rs:21-25 | every shape of pattern has byte classes with which the two searches agree on all inputs |
| Shape.ShapeDoesNotDecide | crates/regexbench/src/lib.rs:21-25 | of two patterns of one shape one makes the searches differ and the other never does: a condition on the shape can be exact only for all byte classes together |
| Shape.UniqueEndsAgree | crates/regexbench/src/lib.rs:21-25 | orderly or not, the two searches agree where each start has at most one match |
| Engines.ScanMatches | crates/regexbench/src/lib.rs:457-476 | the loop appends the spans of its search to the output, unless the search gave up |
| Scan.SpansCorrect | crates/regexbench/src/lib.rs:452-476 | driven by a leftmost search, the spans are in order, do not overlap, are never empty where the one before ended, and leave no match out |
| Scan.SpansUnique | crates/regexbench/src/lib.rs:452-476 | no other list of spans is ordered and complete in that sense |
| Engines.NaiveFindAll | crates/regexbench/src/naive.rs:109-113 | the backtracker's spans are appended to the output |
| Engines.ThompsonFindAll | crates/regexbench/src/thompson.rs:308-311 | the machine's spans are appended to the output |
| Engines.PrefilterFindAll | crates/regexbench/src/prefilter.rs:28-41 | the prefilter appends exactly the machine's spans, with or without a usable literal |
| Engines.PikeSpansCorrect | crates/regexbench/src/thompson.rs:308-311 | the machine's spans are matches of the pattern, ordered and apart, and wherever a match begins some span accounts for it |
| Engines.NaiveSpansCorrect | crates/regexbench/src/naive.rs:109-113 | the same of the backtracker's spans |
| Engines.OrderlySpansAgree | crates/regexbench/src/lib.rs:21-25 | for an orderly pattern and any input both give the same list of spans |
| Engines.DifferenceShows | crates/regexbench/src/lib.rs:457-476 | searches that differ from the first position give different lists of spans |
| Engines.FirstSpansAgree | crates/regexbench/src/lib.rs:21-25 | for every pattern both lists are empty or both begin at the same place |
| Engines.PikeIsLeftmost | crates/regexbench/src/thompson.rs:225-305 | the machine's search is leftmost and the same from wherever it is asked |
| Prefilter.SingleByte | crates/regexbench/src/lib.rs:130-141 | finds the only byte a class accepts, or that there is not exactly one |
| Prefilter.LeadingLiteralPrefix | crates/regexbench/src/prefilter.rs:67-88 | the longest run of single bytes the pattern begins with, or none |
| Prefilter.LeadingLiteralUnique | crates/regexbench/src/prefilter.rs:67-88 | a pattern has only one such literal |
| Prefilter.MatchBeginsWithLiteral | crates/regexbench/src/prefilter.rs:10-17 | every match begins with the literal |
| Prefilter.FindWithPrefix | crates/regexbench/src/prefilter.rs:44-62 | jumping between occurrences of the literal and verifying each gives the machine's unanchored answer |
| LazyDfa.BuildClosure | crates/regexbench/src/flat_dfa.rs:66-79 | the closure is the visit's ready list, appended, and the flags are what the visit has seen |
| LazyDfa.BuildClosures | crates/regexbench/src/flat_dfa.rs:135-144 | one closure for each instruction, each from cleared flags |
| LazyDfa.Dfa.constructor | crates/regexbench/src/flat_dfa.rs:134-171 | a new DFA has correct tables and has not given up |
| LazyDfa.Dfa.Intern | crates/regexbench/src/flat_dfa.rs:176-201 | equal lists get one state, new ones a new one with an empty row, and the DFA gives up exactly when a new one would pass the cap |
| LazyDfa.Dfa.Walk | crates/regexbench/src/flat_dfa.rs:213-232 | the filtered closures, with the position each came from before the 16-bit cast, are the machine's step |
| LazyDfa.Dfa.ComputeStep | crates/regexbench/src/flat_dfa.rs:206-245 | the slot is filled with the step's state, and with its provenance as long as that fits its types; on overflow the tables stay correct |
| LazyDfa.Dfa.TransitionInto | crates/regexbench/src/flat_dfa.rs:250-280 | the next state is the step's; while the tables fit, the next starts are those the step's provenance points at, each inside the current list |
| LazyDfa.Dfa.MergeSeedInto | crates/regexbench/src/flat_dfa.rs:288-327 | the memoised merge is the state followed by what the start closure adds, begun at the given position |
| LazyDfa.Dfa.Turn | crates/regexbench/src/flat_dfa.rs:352-385 | while the tables fit, one turn keeps the machine's answer, or is the last and has it, or gives up |
| LazyDfa.Dfa.CachedFind | crates/regexbench/src/flat_dfa.rs:336-390 | in whatever state earlier calls left the DFA, the answer is the machine's, or none and the DFA has given up, as long as the provenance table is below 2^32 entries and the program below 2^16 instructions |
| LazyDfa.DfaTurn | crates/regexbench/src/flat_dfa.rs:329-390 | a transition with its seeding does to state and starts what a turn does to the machine's threads |
| LazyDfa.SmallFits | crates/regexbench/src/flat_dfa.rs:241-244 | the DFA of a program of up to 1,677 instructions stays below these sizes whatever it is asked |
| LazyDfa.WalkedSlot | crates/regexbench/src/flat_dfa.rs:206-245 | positions and offsets survive the casts to 16 and 32 bits while the tables fit |
| DfaSpec.StepFromReads | crates/regexbench/src/flat_dfa.rs:206-280 | the machine's next threads are the stored instructions with the starts their provenance points at |
| DfaSpec.VisitIsFilteredClosure | crates/regexbench/src/flat_dfa.rs:218-228 | the shared visit is the precomputed closure without what is present |
| DfaTables.ComputedFill | crates/regexbench/src/flat_dfa.rs:241-244 | a slot counts as computed once |
| Caches.LazyCache.FindAll | crates/regexbench/src/lazy_dfa.rs:376-403 | on an empty output, exactly the machine's spans for every route, also when the cap was hit now or before; the cache stays valid |
| Caches.FlatCache.FindAll | crates/regexbench/src/flat_dfa.rs:401-434 | the same with the verdicts kept on the cached DFA |
| Caches.FlatCache.Known | crates/regexbench/src/flat_dfa.rs:406-417 | the cached DFA is the one of this pattern text, with correct verdicts, and other entries are untouched |
| Caches.LongLiteral | crates/regexbench/src/flat_dfa.rs:418-422 | the kept literal decides the route as a fresh one would |
| Dispatch.Matchers.FindAll | crates/regexbench/src/lib.rs:441-449 | whichever matcher is asked, the promised spans |
| Dispatch.RunCalls | crates/regexbench/src/flat_dfa.rs:44-49 | in every sequence of calls over any patterns and inputs with shared caches, every answer is the promised one |
| Dispatch.AllAgree | crates/regexbench/src/lib.rs:23-25 | the four machine-based matchers always agree, and all five do on orderly patterns |
| Corpus.CorpusExact | crates/regexbench/src/corpus.rs:60-86 | a corpus file is read as these pairs if and only if they can be written and the file begins with what is written for them |
| Corpus.GoldenExact | crates/regexbench/src/corpus.rs:89-131 | the same for golden files and their spans |
| Corpus.CorpusRoundTrip | crates/regexbench/src/corpus.rs:60-86 | reading back what was written gives the pairs, for UTF-8 patterns and sizes below 2^32 |
| Corpus.GoldenRoundTrip | crates/regexbench/src/corpus.rs:89-131 | the same for golden pairs |
| Layout.CorpusLayout | crates/regexbench/src/corpus.rs:72-86 | a corpus file is read as these pairs if and only if it begins with the magic line, the count stands at offset 19, least byte first, and from 23 on each pair is its pattern, UTF-8, before its input, each behind its length |
| Layout.GoldenLayout | crates/regexbench/src/corpus.rs:106-131 | the same for golden files, where behind each pair stand the number of spans and each span as start before end |
| Layout.WrittenLayout | crates/regexbench/src/corpus.rs:60-103 | what is written is laid out so |
| CorpusFiles.WriteU32 | crates/regexbench/src/corpus.rs:50-52 | four bytes are appended, worth 1, 256, 65536 and 16777216 in turn, and their sum is the value modulo 2^32 |
| CorpusFiles.SerializeCorpus | crates/regexbench/src/corpus.rs:60-69 | the loop writes the corpus text |
| CorpusFiles.SerializeGolden | crates/regexbench/src/corpus.rs:89-103 | the loops write the golden text |
| CorpusFiles.Cursor.NextU32 | crates/regexbench/src/corpus.rs:30-38 | the number of the next four bytes, the first worth least, or the end of the file |
| CorpusFiles.DeserializeCorpus | crates/regexbench/src/corpus.rs:72-86 | the cursor loop reads what the format says, errors included |
| CorpusFiles.DeserializeGolden | crates/regexbench/src/corpus.rs:106-131 | the nested cursor loops read what the format says, errors included |
| Wire.FixedRoundTrip | crates/optikit/src/lib.rs:124-167 | a printed fixed record is read back if and only if its mode has no tab or line end, its numbers fit their types and time elapsed |
| Wire.ParsedFits | crates/optikit/src/lib.rs:124-167 | the record read from any text is one that could have been printed; which texts are read is `RecordTexts.FixedExact` |
| Wire.GateRoundTrip | crates/optikit-campaign/src/main.rs:1713-1767 | what is printed for validated ids is believed if and only if its artifact and workload are the expected ones and the count is positive and below 2^64 |
| Wire.CleanGateBack | crates/optikit-campaign/src/main.rs:1713-1767 | which error it is otherwise, and that this holds for any ids without tab and line end |
| RecordTexts.FixedExact | crates/optikit/src/lib.rs:124-167 | a text is read as this record if and only if it is a single line, its first piece between tabs is the version, and just one piece begins with each key and `=`, with digits below the limit behind it that are worth the number recorded |
| RecordTexts.GateExact | crates/optikit-campaign/src/main.rs:1713-1767 | a text is believed with this count if and only if it is a single line behind the gate version whose only status is `equivalent`, whose only artifact and workload are the expected ones, and whose only count is worth this number, which is positive |
| Records.RecordBack | crates/regexbench/examples/bench.rs:248-250 | a printed line is split back into its fields, and each key finds its own value and no other |
| Records.NumberBack | crates/optikit/src/lib.rs:140-149 | a printed number is read back if and only if it is below the type's limit |
| CampaignPlan.Validate | crates/optikit-campaign/src/main.rs:1102-1327 | a plan is accepted exactly when it is valid: ids, designs, block bounds, and the timeout budget of every block count it may use |
| CampaignPlan.FewerFit | crates/optikit-campaign/src/main.rs:1299-1325 | where the largest block count fits the timeout, smaller ones do |
| CampaignPlan.ScheduleFits | crates/optikit-campaign/src/main.rs:1299-1325 | however the blocks are ordered and however long each of their runs takes within the subject timeout, so many blocks as fit end before the paired timeout, with a tenth of their time to spare |
| CampaignPlan.RunsCount | crates/optikit/src/lib.rs:58-73 | in whatever order its blocks come, a schedule has four runs for each block, and as many of either side |
| CampaignState.SafeRecord | crates/optikit-campaign/src/main.rs:1553-1705 | promotions chain from the original baseline through distinct candidates; another baseline than the original is accepted only if the held-out run of the winner on every workload reported a ratio above the threshold |
| CampaignState.PromotionEarned | crates/optikit-campaign/src/main.rs:1563-1644 | a recorded candidate was promoted if and only if every gate process of it ended with status 0 and printed a record that is believed, and every comparison of it reported a ratio above the threshold |
| CampaignState.TrialRuns | crates/optikit-campaign/src/main.rs:1563-1628 | a recorded candidate was gated once on each workload, in order; it is turned away if and only if some gate did not pass, and then nothing was timed; otherwise it was compared once on each workload, and the ratios recorded are those reported |
| CampaignState.CalibrationNearest | crates/optikit-campaign/src/main.rs:1523-1551 | the count recorded is the one reported; the selected one is allowed, no allowed one is nearer to it, and the cap was applied if and only if it is below it |
| CampaignState.FailureStops | crates/optikit-campaign/src/main.rs:1500-1706 | after an answer that fails no process is run: a failed write, save or hash check, a gate that ended in another way than passing or finding a difference, a paired run without result |
| CampaignState.RunsChecked | crates/optikit-campaign/src/main.rs:962-994 | a process is run only right after its file was found unchanged, and that was written down |
| CampaignState.LoggedAsAnswered | crates/optikit-campaign/src/main.rs:1815-1838 | what is written of a gate, a calibration or a comparison is what the process just before it said |
| CampaignState.HeldOutSeeds | crates/optikit-campaign/src/main.rs:1656-1672 | no held-out run uses a seed that any candidate was tried with, and all of these came before |
| CampaignState.PromotionsChain | crates/optikit-campaign/src/main.rs:1553-1617 | each promotion starts where the one before ended, in the plan's order |
| CampaignState.PromotionsDistinct | crates/optikit-campaign/src/main.rs:1553-1617 | no candidate is promoted twice, and never the original baseline |
| Campaign.CalibrationStep | crates/optikit-campaign/src/main.rs:1500-1525 | a calibration run fits its timeout and starts only after the original baseline passed every gate |
| Campaign.ComparisonStep | crates/optikit-campaign/src/main.rs:1954-2005 | a comparison is covered by earlier gates of both sides and by the timeout, and no candidate is tried after a held-out run |
| Campaign.BlocksFit | crates/optikit-campaign/src/main.rs:1523-1551 | every calibrated block count, clamped or not, fits the paired timeout |
| Campaign.RunContext.GateOn | crates/optikit-campaign/src/main.rs:1815-1855 | the answer is whether the process of this gate passed, by its exit status and what it printed; a process that neither passes nor finds a difference stops the campaign |
| Campaign.RunContext.GateArtifact | crates/optikit-campaign/src/main.rs:1769-1857 | the gate is run once on each workload, in order, nothing else is run, and the failures are just the workloads where it did not pass |
| Campaign.RunContext.RunComparison | crates/optikit-campaign/src/main.rs:1944-2060 | one comparison on each workload, in order, with calibrated blocks that are always defined and the seeds of its stage, and nothing else; each result holds the ratio its process reported, and whether that is above the threshold |
| Campaign.RunContext.Calibrate | crates/optikit-campaign/src/main.rs:1523-1551 | every workload is calibrated, once each, with only gates run before and nothing compared |
| Campaign.RunContext.TryCandidate | crates/optikit-campaign/src/main.rs:1563-1644 | the next candidate is tried and recorded, those after it are not touched, and the baseline from then on has passed its gates; an error means that some answer failed or the event numbers ran out |
| Campaign.RunContext.Confirm | crates/optikit-campaign/src/main.rs:1656-1705 | the winner is compared once, on held-out runs, with the original baseline, and the outcome is confirmed or inconclusive |
| Campaign.RunContext.Execute | crates/optikit-campaign/src/main.rs:1500-1706 | the record is safe however the run goes; it ends well only if no answer failed and the original baseline passed its gates, and early only if some answer failed, that baseline differed, or the event numbers ran out, which they do not within the plan's bound on events |
| Campaign.RunCampaign | crates/optikit-campaign/src/main.rs:2600-2634 | a valid plan is run, any other refused; whatever the world answers, the final state and every state ever written are safe records of what was asked, and each event written used up one number; the campaign ends well if (for plans whose bound on events is below 2^64) and only if no answer failed and every gate of the original baseline passed, and then its files were checked after the last run and its last state is on disk |

## Left out

- Priority.OrderlyAgree: one direction for the pattern as a whole. The other is false of it:
  a loop that is not orderly may be masked by what stands around it (`Exact.MaskedAgrees`).
  It is proved for each loop by itself.
- Exact.OrderlyExact: patterns with `^` or `$`. Orderly ones agree too, but there being
  orderly is not the exact test: it takes an anchor for an empty match at every place, and
  `($|b)+`, where `$` passes only where no byte is left, agrees without being orderly
  (`Anchored.AnchorsHide`). A test on the shape that knows where anchors pass is not part of
  this model; the same goes for Exact.LoopExact, Witness.StarDiffers and Witness.PlusDiffers.
- LazyDfa.Dfa.CachedFind: what is answered once the provenance table outgrows 32-bit
  offsets; programs with assertions, which are never routed to it.
- Caches.FlatCache.FindAll: patterns that are left to the DFA and whose program has more
  than 1,677 instructions, where the table might outgrow its offsets and the scan might not
  end; and `Regex` values whose public fields were changed so that tree and text disagree.
- Caches.LazyCache.FindAll: the same.
- Dispatch.RunCalls: the same, for calls of the two DFA matchers.
- Paths.CompileCorrect: trees with an empty alternation, which the parser never makes; for
  these the compiler emits nothing where the backtracker fails.
- Printer.RoundTrip: where a class takes the upper bytes apart, the printed text is a byte
  string and need not be UTF-8.
- Printer.ParserMakes: which trees the texts with characters beyond ASCII have, whose bytes
  are read one by one, is bounded by `Printer.TextMakes` only.
- Prefilter.FindWithPrefix: the substring search is a foreign function, modelled by its
  contract (least offset of the needle, or none).
- Wire.FixedRoundTrip: the rate in the record is a float no reader looks at; it is any text
  without tab and line end.
- Campaign.RunCampaign: files, processes and clocks are the world's answers, any sequence of
  them. Of a gate this is its exit status and what it printed; of a paired run only the count
  or ratio read from it, so a run that fails, a bad plan line and a result that is not believed
  are all one, and infinities and NaN are not modelled. One checked file stands for all that
  are checked before a run, a file that cannot be read for one that changed, and the event of
  a process's end for its output files too. That a fault-free run ends well is promised for
  plans whose bound on events is below 2^64.
- CampaignPlan.Validate: version strings, the campaign's own id, the measure, environment, arguments, hypotheses, output limits,
  float-valued settings other than the ratio, and resolving files.
- Campaign.RunContext.GateArtifact: failures are the ids of the workloads, where the source
  keeps a message for each.
- One class stands for the DFAs of both modules, whose tables and methods are the same; the
  scratch buffers and kept verdicts are those of `flat_dfa.rs`.
- Machine-sized positions and lengths are unbounded; only the table entries, generation
  stamps, file sizes, event sequence and timeout arithmetic have their widths.
- Loop bodies of the searches and of the branch loop of `emit` are methods of their own, and
  the machine seeds the next generation just before the lists are swapped instead of after.
- The search closure of `scan_matches` is a datatype of finders, and the output vector is
  passed in and handed back.
- Allocation, including a declared count that is larger than the file.
- `oracle.rs`, `sota.rs` and any claim about the external `regex` crate.
- Parsing what the paired runner prints, its own loop, and how it draws the order of a block.
- What a report says; here it is one more write that may fail.
- Statistics in floating point: summaries, critical values, recommended block counts.
- Command lines, reports, corpus generation and scripts.
