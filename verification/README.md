# Verified models of the algorithms in JSC.js

JSC.js bundles a JavaScript engine shell, some ICU sources, a keyword-matcher generator, an
emscripten runtime and a benchmark file with complete textbook algorithms. This project models the
parts of it that compute something hard and proves what they compute, in Dafny. `dafny verify
dfyconfig.toml` checks everything.

| files | part of the system |
|---|---|
| `Options` | a value that may be missing |
| `Arithmetic`, `DigitArithmetic`, `BigInteger` | digit arrays with split multiply-add, subtraction, comparison, product and square |
| `Montgomery`, `ModPow`, `MontgomeryPower`, `MontgomeryModPow` | Newton inversion of a digit, Montgomery reduction, sliding-window exponentiation for any reducer and in memory with Montgomery's |
| `SplayCost`, `SplayTree` | the top-down splay tree as an ordered map, and what it costs |
| `Prover`, `Rewriting` | the nboyer prover: matching, rewriting, tautology check; rewriting as a chain of single replacements |
| `Scheduler`, `SchedulerEnds`, `PacketStore`, `SchedulerObject` | the Richards task scheduler: its states, why it ends, its linked packets, the object |
| `SchedulerHistory`, `SchedulerControl` | what its tasks take and send over whole runs, and who runs next |
| `RichardsProgram`, `RichardsLetters`, `RichardsCounts`, `RichardsRests`, `RichardsTally`, `RichardsThousand` | the program runRichards: its configuration, every packet its handlers send, and the two counts it checks |
| `EarleyTables`, `EarleyTrees` | the Earley parser's tables, listing and counting of derivation trees |
| `EarleyCells`, `EarleyChart`, `EarleyParser`, `EarleyBackward`, `EarleyLanguage`, `EarleyDerivation` | its state table with the lists linked inside, the two passes that fill it, what that says about the grammar's language, and that the trees listed are those of the grammar |
| `EarleyCounting`, `EarleyEnds`, `EarleyCatalan` | how often a tree is listed, when the listing ends, and the number of trees that the benchmark expects |
| `AffixPattern`, `AffixStrings`, `UserAffixStrings` | ICU affix patterns: packed tokens, two string forms |
| `KeywordTrie`, `KeywordMatcher`, `KeywordGenerator` | keyword list to trie to nested comparisons |
| `TransliteratorCache`, `ScriptRuns` | AnyTransliterator: the shared cache, the script runs of a text under editing |
| `Agents`, `AgentHistory` | the shell's worker threads: broadcasts, reports, the start handshake; what each request is answered |
| `Utf8` | the runtime's UTF-8 encoder, length function and decoder |

Objects that the source updates in place are classes or arrays here, and its loops are loops; each
such method is proved against a function of the old state, and the promises are lemmas about that
function. Concurrent code is a state machine whose executions are all interleavings of its steps.
JavaScript numbers are integers; where the code applies bit operators or relies on exact products,
the 32-bit and 53-bit bounds are preconditions that are proved at every use.

Where the code does not do what its documentation or its name says, the code is modelled, an input that shows it
is given and the exact condition under which the promise holds is proved:

- am1 is documented for carries below three times the digit value, but beyond twice the digit value some
  digits give the sum 2^53 + 1, which no double holds; it is exact for all digits if and only if the carry is
  at most twice the digit value (`Am1CarryLimitIsSharp`), which is what its callers pass.
- compareTo answers the reverse for two negative numbers of different length, and the right sign
  otherwise (`MisordersNegatives`, `CompareTo`).
- toString is documented as the inverse of parseAffixString and toUserString as that of
  parseUserAffixString; each is so exactly on the patterns that `Canonical` and `UserCanonical`
  describe (`SignAbsorbed`, `RoundTrip`, `SpecialsClash`, `UserRoundTrip`).
- the tautology check accepts exactly the terms that are true when every condition of an IF, itself an
  IF or not, is taken as a proposition of its own (`TautologyExact`). So it misses some tautologies with
  an IF in a condition and finds others (`NestedConditionMissed`, `NestedConditionFound`), and it finds
  all of those without one (`TautologyDecides`).
- ScriptRunIterator::next is documented to answer true at least once; for an empty text it does not, and
  it answers true exactly while the end is not reached (`NoRunInEmptyText`, `ScriptRunIterator.Next`).
- handleTransliterate is to leave pos.start at most pos.limit and hands windows on to other transliterators.
  With a post-context a run without a transliterator can carry pos.start past the limit (`StartPassesLimit`),
  and the next transliterator can be given a window that ends before it starts (`WindowInverted`). Neither
  happens if and only if the text has no post-context or the first run that goes beyond pos.start, reaches the
  limit and has a transliterator touches the limit but for shared characters, as `Contained` reads off the text
  before the call (`HandledProperly`, `HandleTransliterate`).
- parse->parsed? reads a position behind the state off the end of a vector and takes it for true. For i <= j it
  answers exactly whether the nonterminal takes part from i to j in a derivation of the whole input; for i > j,
  where nothing does, it answers whether the nonterminal ends at j at all (`IsParsed`, `PartOrder`).
- parse->trees lists the trees of a rule twice if two definitions of one symbol have that rule under the same
  number (`TwinsRepeat`); without such rules it lists every tree once (`ListsOnce`).
- getTransliterator is documented to pivot through Latin if there is no direct transliterator; an error
  code that the first attempt leaves is not reset and spoils the pivot (`StaleErrorSpoilsPivot`). A call
  comes to publish an object exactly if the first attempt left no error and either it or the second, also
  without an error, made an object (`PublishExactly`).

## Model

| member | source | states |
|---|---|---|
| `DigitArithmetic.SplitProduct` | demo/v8_benchmark.js:1821-1829 | multiplying by half digits and recombining gives exactly x times the digit plus the old digit plus the carry |
| `DigitArithmetic.SplitBounds` | demo/v8_benchmark.js:1817-1849 | for x < 2B, digits < B and carry < 3B every value a bit operator touches is below 2^31 and the new carry is again below 3B |
| `DigitArithmetic.Am1Exact` | demo/v8_benchmark.js:1783-1796 | a step of am1 stays within 2^53 and keeps its carry bound |
| `DigitArithmetic.Am1CarryLimitIsSharp` | demo/v8_benchmark.js:1780-1796 | for carries below 3B, am1's sum is within 2^53, and a value a double can hold, for all digits if and only if the carry is at most 2B |
| `DigitArithmetic.AmVal` | demo/v8_benchmark.js:1786-1849 | multiply-add as an equation between whole numbers: w plus the carry out equals old w plus b^j times (x*a + carry in) |
| `DigitArithmetic.AmUnique` | demo/v8_benchmark.js:1786-1849 | that equation determines every digit and the carry, so all routines of one base compute the same |
| `DigitArithmetic.AmCarry` | demo/v8_benchmark.js:1780-1849 | with x and the carry below the base the carry out is again below the base |
| `DigitArithmetic.ShiftedDown` | demo/v8_benchmark.js:2039-2045 | dropping n digits divides by b^n and rounds down, whatever the sign |
| `DigitArithmetic.MultiplyStep` | demo/v8_benchmark.js:2130-2133 | one round turns the product with the first i digits into the product with the first i+1 |
| `DigitArithmetic.SquareStep` | demo/v8_benchmark.js:2147-2153 | one round of squaring keeps the partial-square equation, and one subtraction of the base repairs the only digit that can overflow |
| `DigitArithmetic.SquareLast` | demo/v8_benchmark.js:2154 | after the last diagonal term the digits are those of the true square |
| `BigIntegers.BigInteger.MulAdd1` | demo/v8_benchmark.js:1786-1796 | am1 meets the multiply-add equation, leaves other digits alone and keeps the carry bound |
| `BigIntegers.BigInteger.MulAdd3` | demo/v8_benchmark.js:1817-1831 | am3 meets the same equation in base 2^28 with all bit operations below 2^31 |
| `BigIntegers.BigInteger.MulAdd4` | demo/v8_benchmark.js:1835-1849 | am4 meets the same equation in base 2^26 |
| `BigIntegers.BigInteger.MulAdd` | demo/v8_benchmark.js:1856-1859 | whichever routine is bound, the same equation in its base |
| `BigIntegers.BigInteger.Clamp` | demo/v8_benchmark.js:1952-1956 | drops exactly the leading digits that repeat the sign; the value stays |
| `BigIntegers.BigInteger.CopyTo` | demo/v8_benchmark.js:1889-1896 | the copy has the same digits, sign and value |
| `BigIntegers.BigInteger.DrShiftTo` | demo/v8_benchmark.js:2039-2045 | the quotient by b^n rounded down, for all signs; the target may be the source |
| `BigIntegers.BigInteger.SubTo` | demo/v8_benchmark.js:2087-2120 | the result is clamped and its value is the difference, for all signs and any aliasing of the target |
| `BigIntegers.BigInteger.CompareTo` | demo/v8_benchmark.js:1996-2007 | the sign of the answer is that of the difference, except that it is reversed exactly for two negatives of different length |
| `BigIntegers.BigInteger.MisordersNegatives` | demo/v8_benchmark.js:1996-2007 | for -b and -1 the answer is positive, though -b is less than -1 |
| `BigIntegers.BigInteger.Negate` | demo/v8_benchmark.js:1990 | a new number with the negated value |
| `BigIntegers.BigInteger.Abs` | demo/v8_benchmark.js:1993 | the absolute value |
| `BigIntegers.BigInteger.MultiplyTo` | demo/v8_benchmark.js:2124-2137 | the value is the true product, for all signs |
| `BigIntegers.BigInteger.SquareTo` | demo/v8_benchmark.js:2140-2157 | the value is the true square, including the overflow repair |
| `MontgomeryReduction.NewtonStep` | demo/v8_benchmark.js:2253-2259 | y*(2-x*y) inverts x modulo the square of the modulus to which y does |
| `MontgomeryReduction.InvDigit` | demo/v8_benchmark.js:2248-2262 | 0 for no digits or an even one, otherwise the unique factor below the base whose product with the low digit is -1 modulo the base |
| `MontgomeryReduction.LowProduct` | demo/v8_benchmark.js:2298-2299 | the product modulo the base from 15-bit halves, without leaving 32 bits |
| `MontgomeryReduction.ClearsDigit` | demo/v8_benchmark.js:2296-2302 | u congruent to x*mp makes x + u*m[0] divisible by the base |
| `MontgomeryReduction.AmClears` | demo/v8_benchmark.js:2296-2302 | adding that multiple of m makes digit i zero |
| `MontgomeryReduction.RoomForCarries` | demo/v8_benchmark.js:2292-2305 | the sum stays inside the padding, so carries never run past it |
| `MontgomeryReduction.Montgomery.constructor` | demo/v8_benchmark.js:2265-2272 | the constants of an odd modulus, with mp*m[0] congruent to -1 |
| `MontgomeryReduction.Montgomery.Reduce` | demo/v8_benchmark.js:2292-2309 | for odd m and 0 <= x < m*b^t leaves r < m with r*b^t congruent to x modulo m |
| `MontgomeryReduction.Montgomery.Round` | demo/v8_benchmark.js:2296-2305 | one round adds a multiple of m that clears one more low digit |
| `MontgomeryReduction.Montgomery.PropagateCarry` | demo/v8_benchmark.js:2303-2304 | carrying restores digits below the base without changing the value |
| `MontgomeryReduction.Montgomery.MulTo` | demo/v8_benchmark.js:2315 | r < m with r*b^t congruent to x*y |
| `MontgomeryReduction.Montgomery.SqrTo` | demo/v8_benchmark.js:2312 | r < m with r*b^t congruent to x*x |
| `MontgomeryReduction.Montgomery.Revert` | demo/v8_benchmark.js:2284-2289 | a new number r < m with r*b^t congruent to x |
| `ModularPower.NBits` | demo/v8_benchmark.js:2010-2018 | the bit length of a digit, exactly |
| `ModularPower.Expand` | demo/v8_benchmark.js:2836-2843 | the bits of a digit array taken together are the bits of its value |
| `ModularPower.Window` | demo/v8_benchmark.js:2839-2843 | the k bits below the position, also across a digit boundary and past the last bit |
| `ModularPower.Strip` | demo/v8_benchmark.js:2845-2846 | what is left of a window is odd, below 2^n, and lies inside the exponent |
| `ModularPower.Precompute` | demo/v8_benchmark.js:2823-2834 | every odd index below 2^k holds that power of the base |
| `ModularPower.SquareTimes` | demo/v8_benchmark.js:2853-2854 | n squarings multiply the exponent by 2^n |
| `ModularPower.ConsumeWindow` | demo/v8_benchmark.js:2847-2856 | r becomes the power by the bits consumed so far, and the table entry used is present |
| `ModularPower.SkipZeros` | demo/v8_benchmark.js:2858-2861 | the inner loop squares once for each zero bit and stops at a one or at the end |
| `ModularPower.NextWindow` | demo/v8_benchmark.js:2839-2846 | the next window is odd, not longer than k, and is the value of the bits below the position |
| `ModularPower.TakeWindow` | demo/v8_benchmark.js:2839-2856 | one round takes n bits off the exponent, the table entry used being odd and precomputed |
| `ModularPower.Slide` | demo/v8_benchmark.js:2836-2862 | the loop computes the power by the whole exponent, for every window size |
| `ModularPower.ModPow` | demo/v8_benchmark.js:2807-2864 | for every exponent and every reducer that is associative on its residues the result is the naive power, reverted; one for exponent zero |
| `MontgomeryPower.RedcUnique` | demo/v8_benchmark.js:2284-2315 | only one residue r of an odd modulus has r*2^k congruent to x: halving x modulo m, k times |
| `MontgomeryPower.MontgomeryIsLawful` | demo/v8_benchmark.js:2312-2315 | multiplying and dividing by 2^k modulo an odd number is associative on the residues |
| `MontgomeryPower.PowerIsScaled` | demo/v8_benchmark.js:2275-2320 | a power of converted numbers is the converted power |
| `MontgomeryPower.MontgomeryPowerCorrect` | demo/v8_benchmark.js:2807-2864 | the power of anything congruent to x*2^k, scaled back, is x^n modulo m, for all integers x |
| `MontgomeryModPow.ValidIsOdd` | demo/v8_benchmark.js:2265-2272 | the modulus of a valid Montgomery object is odd, and b^t is 2^(t*bits) |
| `MontgomeryModPow.Multiply` | demo/v8_benchmark.js:2315 | mulTo writes exactly the product of that reducer |
| `MontgomeryModPow.Square` | demo/v8_benchmark.js:2312 | sqrTo writes exactly its square |
| `MontgomeryModPow.Revert` | demo/v8_benchmark.js:2284-2289 | revert answers exactly its way back |
| `MontgomeryModPow.Precompute` | demo/v8_benchmark.js:2823-2834 | the table of odd powers, each in a number of its own |
| `MontgomeryModPow.SquareTimes` | demo/v8_benchmark.js:2853-2854 | n squarings between the two accumulators, exchanged or not, leave the power in the second |
| `MontgomeryModPow.ConsumeWindow` | demo/v8_benchmark.js:2847-2856 | a copy of the table entry, or the squarings and a product with it, consume the window |
| `MontgomeryModPow.SkipZeros` | demo/v8_benchmark.js:2858-2861 | a squaring and an exchange for each zero bit |
| `MontgomeryModPow.Slide` | demo/v8_benchmark.js:2836-2862 | the loop leaves the power by the whole exponent in an accumulator |
| `MontgomeryModPow.ModPow` | demo/v8_benchmark.js:2807-2864 | given what convert promises of its result, the answer is x^e modulo m, or one for exponent zero; nothing that existed is changed |
| `SplayTrees.RotateRight` | demo/v8_benchmark.js:11070-11074 | rotating relinks two nodes and keeps both side trees, the separation of nodes and the subtree |
| `SplayTrees.RotateLeft` | demo/v8_benchmark.js:11088-11092 | its mirror image |
| `SplayTrees.LinkRight` | demo/v8_benchmark.js:11079-11082 | hanging the current node on the right tree keeps the splay invariant |
| `SplayTrees.LinkLeft` | demo/v8_benchmark.js:11097-11100 | its mirror image |
| `SplayTrees.SearchDone` | demo/v8_benchmark.js:11105-11110 | assembling gives one tree with exactly the old nodes in the old order and the key between its subtrees |
| `SplayTrees.SplayTree.Splay` | demo/v8_benchmark.js:11052-11111 | ends, keeps the nodes and their order, and brings the key or a neighbour of it to the root; tree and number of rounds are those of the recursive form |
| `SplayCosts.SplitRound` | demo/v8_benchmark.js:11065-11103 | the recursive form does in one round what the loop does: rotate or not, then stop or pass the current node |
| `SplayCosts.Log2Bounds` | demo/v8_benchmark.js:10886 | the rank function is the logarithm to base 2, rounded down |
| `SplayCosts.RankSum` | demo/v8_benchmark.js:10886 | two disjoint subtrees cannot both have the rank of the tree they are in |
| `SplayCosts.SplitCost` | demo/v8_benchmark.js:11064-11104 | rounds plus the potential left are at most the potential before plus four ranks and one, with one to spare if the first round rotates |
| `SplayCosts.SplayCost` | demo/v8_benchmark.js:11042-11111 | amortized, splaying n nodes takes at most 6 log2(n) + 1 rounds |
| `SplayCosts.GraftCost` | demo/v8_benchmark.js:10930-10940 | a new root raises the potential by at most 2 log2(n + 1) |
| `SplayCosts.UnrootCost` | demo/v8_benchmark.js:10961-10971 | taking the root out, second splay included, costs at most 4 log2(n) + 1 amortized |
| `SplayTrees.SplayTree.StepRight` | demo/v8_benchmark.js:11065-11082 | a step to the left of the current node, rotating first or not, keeps the splay invariant, or stops where the loop may stop |
| `SplayTrees.SplayTree.StepLeft` | demo/v8_benchmark.js:11083-11100 | its mirror image |
| `SplayTrees.SplayTree.Finish` | demo/v8_benchmark.js:11105-11110 | assembles the tree in place |
| `SplayTrees.SplayTree.Graft` | demo/v8_benchmark.js:10930-10940 | the new node becomes the root with the old one on its other side |
| `SplayTrees.SplayTree.Insert` | demo/v8_benchmark.js:10919-10941 | adds the entry unless the key is present, in O(log n) amortized rounds |
| `SplayTrees.SplayTree.Remove` | demo/v8_benchmark.js:10952-10973 | removes exactly the entry and answers its node, in O(log n) amortized rounds; null stands for the error on a missing key |
| `SplayTrees.SplayTree.RemoveInner` | demo/v8_benchmark.js:10963-10971 | the second splay leaves a root without right child, so hanging the right subtree there loses no node |
| `SplayTrees.SplayTree.RemoveOuter` | demo/v8_benchmark.js:10961-10962 | a root without left child is replaced by its right child |
| `SplayTrees.SplayTree.HangRight` | demo/v8_benchmark.js:10968-10970 | the right subtree takes the place of the missing right child |
| `SplayTrees.SplayTree.Find` | demo/v8_benchmark.js:10983-10989 | the node of the key, if any, in O(log n) amortized rounds; the map is unchanged |
| `SplayTrees.SplayTree.FindMax` | demo/v8_benchmark.js:10995-11004 | the last node of a subtree |
| `SplayTrees.SplayTree.Max` | demo/v8_benchmark.js:10995-11004 | without a start node the entry with the greatest key, null exactly for the empty map |
| `SplayTrees.SplayTree.FindGreatestLessThan` | demo/v8_benchmark.js:11011-11027 | the entry with the greatest key below the given one |
| `SplayTrees.SplayTree.ExportKeys` | demo/v8_benchmark.js:11033-11039 | exactly the keys of the map, strictly rising |
| `SplayTrees.SplayTree.Traverse` | demo/v8_benchmark.js:11145-11153 | visits a subtree in order |
| `SplayTrees.SplayTree.Apply` | demo/v8_benchmark.js:10919-11027 | one operation answers as the ordered map does |
| `SplayTrees.SplayTree.Run` | demo/v8_benchmark.js:10919-11039 | every sequence of operations answers as the ordered map does, and m operations on an empty tree splay for at most m (10 log2(m) + 2) rounds in all |
| `Prover.UnifySound` | demo/v8_benchmark.js:7946-7992 | a match turns the pattern into exactly the subject, also under any extension of its bindings |
| `Prover.UnifyComplete` | demo/v8_benchmark.js:7946-7992 | if any substitution does, matching succeeds with bindings that agree with it |
| `Prover.MatchingIsInstanceCheck` | demo/v8_benchmark.js:7933-7992 | matching succeeds if and only if the subject is an instance of the pattern |
| `Prover.SubstMeaning` | demo/v8_benchmark.js:7866-7874 | the meaning of an instance is the meaning of the pattern under the substituted environment |
| `Prover.StepMeaning` | demo/v8_benchmark.js:7923-7934 | replacing an instance of an equation's left-hand side keeps the meaning in its models |
| `Prover.RewriteMeaning` | demo/v8_benchmark.js:7915-7944 | rewriting that ends keeps the meaning in every model of the equations |
| `Prover.FuelIrrelevant` | demo/v8_benchmark.js:7915-7944 | more fuel never changes the outcome of a rewriting that ended |
| `Prover.TautologySound` | demo/v8_benchmark.js:7875-7912 | a term found tautologous is non-false wherever its assumptions hold |
| `Prover.TautologyExact` | demo/v8_benchmark.js:7875-7912 | for every term: accepted if and only if true under all valuations that take each condition as a proposition and remember those decided on the path |
| `Prover.TautologyDecides` | demo/v8_benchmark.js:7875-7912 | for terms without an IF in a condition: accepted if and only if true under every valuation |
| `Prover.NestedConditionMissed` | demo/v8_benchmark.js:7875-7912 | for every term p, a tautology with an IF in a condition that is not accepted |
| `Prover.NestedConditionFound` | demo/v8_benchmark.js:7875-7912 | for every term p, one that is |
| `Prover.ProverSound` | demo/v8_benchmark.js:8078-8107 | a proved term is non-false in every model of the equations with the usual if |
| `Prover.Setup` | demo/v8_benchmark.js:8044-8074 | succeeds exactly on equations and files each under its function, the latest first |
| `Prover.SetupSatisfied` | demo/v8_benchmark.js:8044-8074 | a model of the lemmas handed in is a model of the stored equations |
| `Prover.IsTermEqual` | demo/v8_benchmark.js:7997-8030 | structural equality |
| `Prover.IsTermMember` | demo/v8_benchmark.js:8031-8043 | membership up to structural equality |
| `Prover.CheckTautology` | demo/v8_benchmark.js:7875-7912 | the loop computes the recursive check |
| `Prover.Session.OneWayUnify` | demo/v8_benchmark.js:7946-7992 | the matcher that updates the global bindings computes the functional one, also when it fails |
| `Rewriting.RewriteReaches` | demo/v8_benchmark.js:7915-7944 | rewriting that ends has made a chain of single replacements, each of the leftmost innermost instance by the first rule that fits, and leaves no instance of a left-hand side |
| `Rewriting.RewriteExactly` | demo/v8_benchmark.js:7915-7944 | rewriting arrives at a term if and only if the chain of single replacements ends there, and the number of calls is the size of the term and of all that was put in |
| `Rewriting.EndsOnce` | demo/v8_benchmark.js:7915-7944 | that chain has at most one end, and one cost |
| `Prover.Session.RewriteTerm` | demo/v8_benchmark.js:7915-7940 | the rewriter with its global bindings and counter computes the functional one, and the counter grows by exactly its number of calls |
| `Prover.Session.RewriteTerms` | demo/v8_benchmark.js:7941-7944 | the same for argument lists, with the counter |
| `Prover.Session.Test` | demo/v8_benchmark.js:8078-8107 | instantiate, rewrite, check; the counter ends as the number of rewriting calls |
| `RichardsScheduler.FlagsAreBits` | demo/v8_benchmark.js:563-609 | setting and clearing flags is what the code's bit operations do to the state word |
| `RichardsScheduler.ReleaseKeeps` | demo/v8_benchmark.js:494-503 | release keeps the invariant, strict priority and every packet |
| `RichardsScheduler.HoldKeeps` | demo/v8_benchmark.js:510-514 | so does holdCurrent |
| `RichardsScheduler.SuspendKeeps` | demo/v8_benchmark.js:520-523 | so does suspendCurrent, given that a device with a packet is never suspended |
| `RichardsScheduler.EnqueueKeeps` | demo/v8_benchmark.js:531-538 | queueing adds exactly the packet and keeps strict priority |
| `RichardsScheduler.IdleKeeps` | demo/v8_benchmark.js:664-674 | an idle round keeps everything |
| `RichardsScheduler.DeviceKeeps` | demo/v8_benchmark.js:691-701 | a device passes its packet on or stores the one it gets, losing none |
| `RichardsScheduler.WorkerKeeps` | demo/v8_benchmark.js:720-738 | a worker fills and forwards its packet |
| `RichardsScheduler.HandlerKeeps` | demo/v8_benchmark.js:755-781 | a handler's two lists and what it sends together hold every packet it had or was given |
| `RichardsScheduler.TakeKeeps` | demo/v8_benchmark.js:614-628 | run takes a packet only off a non-empty list, and the bit RUNNABLE keeps saying that the list is non-empty |
| `RichardsScheduler.StepKeeps` | demo/v8_benchmark.js:480-487 | a whole round keeps the invariant and the number of each packet |
| `RichardsScheduler.PacketsConserved` | demo/v8_benchmark.js:478-538 | over every run each packet occurs in lists and slots as often as at the start |
| `RichardsScheduler.BlocksKept` | demo/v8_benchmark.js:478-538 | over every run the blocks keep ids, priorities and kinds |
| `RichardsScheduler.StrictPriorityOverRuns` | demo/v8_benchmark.js:478-538 | whenever a task runs, all of higher priority are held or suspended; a device given a packet holds none; an ended run leaves all held or suspended |
| `RichardsScheduler.StartIsGood` | demo/v8_benchmark.js:469-479 | tasks added in rising priority under distinct ids, with addressable packets, start in the invariant |
| `SchedulerEnds.DeviceLowers` | demo/v8_benchmark.js:691-701 | a device's run lowers the potential |
| `SchedulerEnds.WorkerLowers` | demo/v8_benchmark.js:720-738 | so does a worker's |
| `SchedulerEnds.HandlerLowers` | demo/v8_benchmark.js:755-781 | so does a handler's |
| `SchedulerEnds.IdleLowers` | demo/v8_benchmark.js:664-674 | so does an idle task's, as long as its count is positive |
| `SchedulerEnds.StepLowers` | demo/v8_benchmark.js:480-487 | every round keeps packets with those they should be with and lowers the bound on the rounds left |
| `SchedulerEnds.ScheduleEnds` | demo/v8_benchmark.js:478-488 | from every such state schedule() ends within that bound |
| `SchedulerEnds.SpinsForever` | demo/v8_benchmark.js:664-674 | with an idle task whose count is zero or less it never ends |
| `PacketStore.PacketNode.AddTo` | demo/v8_benchmark.js:817-825 | appends to the linked list in place, changing only the last link |
| `PacketStore.Store.Pop` | demo/v8_benchmark.js:617-618 | takes the first packet off a list; no other list changes |
| `PacketStore.Store.Append` | demo/v8_benchmark.js:817-825 | a packet that is nowhere goes to the end of one list; no other list changes |
| `PacketStore.Store.Start` | demo/v8_benchmark.js:636-637 | or becomes the only one of an empty list |
| `PacketStore.Store.Fill` | demo/v8_benchmark.js:698 | or goes to a device's slot |
| `PacketStore.Store.Empty` | demo/v8_benchmark.js:694-695 | and leaves it |
| `SchedulerObject.Scheduler.Add` | demo/v8_benchmark.js:469-473 | addTask as the state function says, with a new linked work list |
| `SchedulerObject.Scheduler.AddRunning` | demo/v8_benchmark.js:457-460 | addRunningTask as the state function says |
| `SchedulerObject.Scheduler.ReleaseTask` | demo/v8_benchmark.js:494-503 | release as the state function says |
| `SchedulerObject.Scheduler.Hold` | demo/v8_benchmark.js:510-514 | holdCurrent as the state function says |
| `SchedulerObject.Scheduler.Suspend` | demo/v8_benchmark.js:520-523 | suspendCurrent as the state function says |
| `SchedulerObject.Scheduler.Queue` | demo/v8_benchmark.js:531-538 | unlinking, readdressing and linking the packet is the state function's append |
| `SchedulerObject.Scheduler.PriorityAdd` | demo/v8_benchmark.js:635-644 | checkPriorityAdd on the linked list as the state function says |
| `SchedulerObject.Scheduler.AcceptPacket` | demo/v8_benchmark.js:756-762 | the packet is linked to one of the handler's two lists |
| `SchedulerObject.Scheduler.TakeWork` | demo/v8_benchmark.js:775-776 | unlinking the first work packet drops it from the list |
| `SchedulerObject.Scheduler.TakeDevice` | demo/v8_benchmark.js:768-771 | unlinking the first device packet drops it, with the next datum, and the work packet counts on |
| `SchedulerObject.Scheduler.RunIdleTask` | demo/v8_benchmark.js:664-674 | the idle task as the state function says |
| `SchedulerObject.Scheduler.RunDeviceTask` | demo/v8_benchmark.js:691-701 | a device as the state function says; with an addressee, no packet stays loose |
| `SchedulerObject.Scheduler.FillData` | demo/v8_benchmark.js:731-735 | the filling loop writes the next four letters of the cycle |
| `SchedulerObject.Scheduler.RunWorkerTask` | demo/v8_benchmark.js:720-738 | the worker as the state function says; no packet stays loose |
| `SchedulerObject.Scheduler.RunHandlerTask` | demo/v8_benchmark.js:755-781 | the handler as the state function says; no packet stays loose |
| `SchedulerObject.Scheduler.RunCurrent` | demo/v8_benchmark.js:614-628 | a block's run as the state function says |
| `SchedulerObject.Scheduler.Schedule` | demo/v8_benchmark.js:478-488 | the object goes through exactly the states of the run, and after every round each packet is in exactly one list or slot |
| `RichardsProgram.RichardsIsGood` | demo/v8_benchmark.js:337-357 | the program's own configuration starts in the invariant |
| `RichardsProgram.RichardsPacketsOnce` | demo/v8_benchmark.js:337-359 | after every number of rounds each of its eight packets occurs exactly once, and no other |
| `RichardsProgram.RichardsEnds` | demo/v8_benchmark.js:337-359 | its schedule() ends within 7*(54+10*count)+6 rounds if the count is positive, and otherwise has not ended then |
| `SchedulerHistory.RoundReacts` | demo/v8_benchmark.js:480-487 | what a round takes off a work list, sends, counts and holds, read off the work lists before and after it, is what its task does with the packet |
| `SchedulerHistory.RoundLaw` | demo/v8_benchmark.js:478-538 | the same for every round, whether a task runs or is passed over: at most one work list gains, at its end, and none loses but what is taken |
| `SchedulerHistory.FirstInFirstOut` | demo/v8_benchmark.js:531-538 | over every run a block takes the packets it had and those sent to it, in that order; what it has not taken is its work list |
| `SchedulerHistory.CountsAreEvents` | demo/v8_benchmark.js:510-538 | over every run queueCount grows by the number of packets sent and holdCount by the number of rounds that hold their block |
| `SchedulerHistory.LettersGoRound` | demo/v8_benchmark.js:731-735 | the n-th letter after v, in closed form |
| `SchedulerHistory.WorkerSends` | demo/v8_benchmark.js:720-738 | over every run a worker sends on each packet it takes, and nothing else; its target and letter are those of that many packets |
| `SchedulerHistory.WorkerAlternates` | demo/v8_benchmark.js:720-738 | over every run the m-th packet a worker sends is the m-th it took, goes to the other handler than the one before, and carries the letters 4m to 4m+3 of the round from 1 to 26 |
| `SchedulerHistory.DeviceReturns` | demo/v8_benchmark.js:691-701 | over every run a device sends back exactly the packets it takes, in order, to where they came from; the last may still be in its slot |
| `SchedulerHistory.HandlerSends` | demo/v8_benchmark.js:755-781 | over every run a handler sends the letters of the work packets it has taken, in order, each on the next device packet it has taken, and each work packet back after its last letter; what it still holds is the rest |
| `SchedulerControl.RoundControls` | demo/v8_benchmark.js:478-538 | which block is current after a round, and every suspended and held bit, from what the running task does |
| `RichardsLetters.RunStaysHome` | demo/v8_benchmark.js:337-359 | over every run of the program packets are where their kind and address say, and every packet sent is on one of the five ways between worker, handlers and devices |
| `RichardsLetters.WorkTaken` | demo/v8_benchmark.js:720-781 | the j-th work packet a handler takes is number 2j, or 2j+1, of the worker's, with its letters |
| `RichardsLetters.HandlerSendsLetters` | demo/v8_benchmark.js:337-359 | for every count, run and i, the i-th packet that a handler sends: four device packets to its own device with the letters, in closed form, then the work packet with its four letters back to the worker |
| `RichardsCounts.StepShows` | demo/v8_benchmark.js:478-488 | round by round the scheduler does what a machine on the numbers of packets does, with the same current block and counts |
| `RichardsRests.ArriveHappens` | demo/v8_benchmark.js:720-781 | a work packet at the worker reaches the next handler, every device packet that waits there leaves with a letter, and all rest but the worker's other packets |
| `RichardsRests.TickHappens` | demo/v8_benchmark.js:664-781 | from every state at rest, releasing either device leads to the next state at rest, where packets and counts are what one function says |
| `RichardsRests.FirstRest` | demo/v8_benchmark.js:337-359 | from the start the program comes to its first state at rest, with 8 packets queued and 2 blocks held |
| `RichardsTally.LeadsState` | demo/v8_benchmark.js:478-488 | every way of the machine is a run of the scheduler that leaves the idle task alone |
| `RichardsTally.IdleReleases` | demo/v8_benchmark.js:664-674 | a run of the idle task releases the device that the last bit of its register says and shifts the register |
| `RichardsTally.RichardsCounted` | demo/v8_benchmark.js:337-369 | for every positive count, whenever schedule() has ended, queueCount and holdCount are those of count - 1 ticks of the shift register from the first rest, and one hold more |
| `RichardsThousand.NextIsTick` | demo/v8_benchmark.js:664-674 | one function on numbers computes a tick and the register |
| `RichardsThousand.Thousand` | demo/v8_benchmark.js:361-380 | for a count of 1000 these are 2322 and 928 |
| `SchedulerObject.Richards` | demo/v8_benchmark.js:337-357 | builds that configuration, with both counts 0 |
| `SchedulerObject.RunRichards` | demo/v8_benchmark.js:337-380 | building and scheduling end with every task held or suspended, every packet in one place and the counts of the tally, and with the program's count of 1000 its check succeeds |
| `EarleyTables.DefsKeep` | demo/v8_benchmark.js:8162-8188 | every symbol of the grammar becomes a nonterminal |
| `EarleyTables.TablesMarked` | demo/v8_benchmark.js:8226-8274 | having a name and being a nonterminal or following a negative step coincide in the tables of every grammar |
| `EarleyTables.CollectNts` | demo/v8_benchmark.js:8162-8188 | the nonterminals in order of appearance |
| `EarleyTables.CountConfs` | demo/v8_benchmark.js:8190-8213 | the number of configurations |
| `EarleyTables.Vectors.PutName` | demo/v8_benchmark.js:8250-8252 | a rule's name, and the configuration is listed as a starter |
| `EarleyTables.Vectors.PutStep` | demo/v8_benchmark.js:8257-8260 | a step, and the configuration is listed as a predictor |
| `EarleyTables.Vectors.PutEnd` | demo/v8_benchmark.js:8265-8267 | the last step, and the configuration is listed as an ender |
| `EarleyTables.Vectors.FillRule` | demo/v8_benchmark.js:8247-8269 | the names, steps and lists of one rule |
| `EarleyTables.Vectors.FillDef` | demo/v8_benchmark.js:8235-8273 | the rules of one definition, numbered from one |
| `EarleyTables.Vectors.FillNts` | demo/v8_benchmark.js:8226-8234 | the configurations of the nonterminals |
| `EarleyTables.MakeParser` | demo/v8_benchmark.js:8162-8274 | the names and steps of the whole grammar; starters, enders and predictors are exactly the lists of the configurations that start, end or stand before the nonterminal, the last first |
| `EarleyCells.NewHolds` | demo/v8_benchmark.js:8367-8371 | a new vector holds two empty lists |
| `EarleyCells.AppendHolds` | demo/v8_benchmark.js:8375-8378 | adjoin appends a position to the list to deal with and keeps the other list, though both share the vector |
| `EarleyCells.MergeHolds` | demo/v8_benchmark.js:8372-8374 | merge joins the two lists in order and leaves nothing to deal with |
| `EarleyCharts.AdjoinShows` | demo/v8_benchmark.js:8375-8378 | a configuration is linked from the state exactly while it has positions to deal with |
| `EarleyCharts.PopShows` | demo/v8_benchmark.js:8455-8459 | unlinking the first configuration and merging its lists keeps that |
| `EarleyCharts.Chart.constructor` | demo/v8_benchmark.js:8349-8366 | states without sets |
| `EarleyCharts.Chart.Get` | demo/v8_benchmark.js:8367-8371 | makes a set without positions where there is none |
| `EarleyCharts.Chart.Adjoin` | demo/v8_benchmark.js:8375-8378 | one more position to deal with, in the vector and the links |
| `EarleyCharts.Chart.AdjoinAll` | demo/v8_benchmark.js:8379-8402 | the position in the sets of all listed configurations |
| `EarleyCharts.Chart.Union` | demo/v8_benchmark.js:8410-8425 | exactly the positions dealt with of one set are added to another, following the links |
| `EarleyCharts.Chart.Pop` | demo/v8_benchmark.js:8453-8459 | takes the first configuration and its new positions |
| `EarleyCharts.Chart.PassEnded` | demo/v8_benchmark.js:8475-8490 | the configuration passes nonterminals that have ended where they started |
| `EarleyCharts.Chart.PassAll` | demo/v8_benchmark.js:8493-8527 | what waited for an ended nonterminal passes it, in every state where it started |
| `EarleyParsers.ItemStart` | demo/v8_benchmark.js:8460-8474 | prediction: what stands behind an item starts |
| `EarleyParsers.ItemPass` | demo/v8_benchmark.js:8475-8527 | completion: an item passes what has ended |
| `EarleyParsers.DealtSound` | demo/v8_benchmark.js:8451-8529 | dealing with a configuration adds only items |
| `EarleyParsers.DealtDeduced` | demo/v8_benchmark.js:8451-8529 | and afterwards every consequence of what is dealt with is in the table, nonterminals that derive nothing included |
| `EarleyParsers.Deal` | demo/v8_benchmark.js:8451-8529 | one round of forw, in place |
| `EarleyParsers.Forward` | demo/v8_benchmark.js:8426-8534 | forw ends, with nothing left to deal with and every consequence in the state |
| `EarleyParsers.ReachedFound` | demo/v8_benchmark.js:8785-8797 | in complete states every item is found |
| `EarleyParsers.Fill` | demo/v8_benchmark.js:8783-8797 | the forward pass ends, and the table holds exactly the items that prediction and completion give |
| `EarleyBackward.UsedBack` | demo/v8_benchmark.js:8862-8867 | a step back leads to two items of a whole parse |
| `EarleyBackward.Copy` | demo/v8_benchmark.js:8403-8409 | copies an item if the forward table has it, and tells |
| `EarleyBackward.BackDealtTraced` | demo/v8_benchmark.js:8831-8884 | dealing with a configuration traces back every way it can have come about |
| `EarleyBackward.BackState` | demo/v8_benchmark.js:8812-8896 | a state is worked off, with nothing left and all traced, and later states stay |
| `EarleyBackward.BackGoal` | demo/v8_benchmark.js:8802-8810 | the ends of the first nonterminal behind the last word |
| `EarleyBackward.UsedFound` | demo/v8_benchmark.js:8798-8896 | every item of a whole parse has been copied |
| `EarleyBackward.Backward` | demo/v8_benchmark.js:8798-8897 | the backward pass ends, and the second table holds exactly the items of parses of the whole input |
| `EarleyLanguages.RuleHasConfs` | demo/v8_benchmark.js:8235-8273 | every rule of the grammar has its configurations one after the other, the first a starter of its head |
| `EarleyLanguages.StarterIsRule` | demo/v8_benchmark.js:8250-8252 | every starter is the first configuration of a rule |
| `EarleyLanguages.BuiltIsSane` | demo/v8_benchmark.js:8162-8274 | the tables of every grammar are what the two passes rely on |
| `EarleyLanguages.Found` | demo/v8_benchmark.js:8426-8534 | an item passes every nonterminal that derives the words behind it, so every derivation is found |
| `EarleyLanguages.ReachedDenotes` | demo/v8_benchmark.js:8426-8534 | an item of a rule says that the symbols it has passed derive the words from its start to its state |
| `EarleyLanguages.UsedMeans` | demo/v8_benchmark.js:8812-8896 | an item of a whole parse has a rule that can go on, with a head that takes part in a derivation of all words |
| `EarleyLanguages.PartFound` | demo/v8_benchmark.js:8812-8896 | whatever takes part in a derivation of all words has all its ends in the second table |
| `EarleyLanguages.PartExactly` | demo/v8_benchmark.js:8798-8896 | for every grammar and input, a nonterminal has an end from i to j in the second table if and only if it takes part from i to j in a derivation of the whole input |
| `EarleyLanguages.WholePart` | demo/v8_benchmark.js:8802-8810 | the first symbol takes part over the whole input exactly if the input is in its language |
| `EarleyLanguages.PartOrder` | demo/v8_benchmark.js:8546-8548 | nothing takes part from a later to an earlier position |
| `EarleyLanguages.Lookup` | demo/v8_benchmark.js:8760-8773 | the classes of a word that are nonterminals, in order |
| `EarleyLanguages.LookupAll` | demo/v8_benchmark.js:8755-8782 | the nonterminals of all words |
| `EarleyLanguages.Parse` | demo/v8_benchmark.js:8748-8898 | for every grammar and input the parser ends, with exactly the items of whole parses |
| `EarleyLanguages.IsParsed` | demo/v8_benchmark.js:8536-8564 | answers whether the nonterminal takes part from i to j in a derivation of the whole input; for i > j whether it ends at j |
| `EarleyDerivations.CombineHas` | demo/v8_benchmark.js:8594-8614 | combining lists gives exactly every tree of one with every tree of the other behind it |
| `EarleyDerivations.TreeDerives` | demo/v8_benchmark.js:8565-8634 | a derivation tree of a symbol over some words shows that the symbol derives them |
| `EarleyDerivations.LastSplit` | demo/v8_benchmark.js:8591-8614 | two trees that meet at a position of the second table make a tree of the rule up to the symbol passed |
| `EarleyDerivations.SplitLast` | demo/v8_benchmark.js:8591-8614 | and every such tree splits at a position that the second table has |
| `EarleyDerivations.TreesExact` | demo/v8_benchmark.js:8565-8634 | for an item of the second table deriv_trees lists exactly the trees of what its rule has passed, whenever it ends |
| `EarleyDerivations.TableReads` | demo/v8_benchmark.js:8565-8634 | the table that the two passes leave is what the tree procedures read, links and cells |
| `EarleyDerivations.ParseLists` | demo/v8_benchmark.js:8635-8664 | for every grammar and input, if parse->trees ends it lists exactly the derivation trees of the nonterminal from i to j if that takes part there in a derivation of the whole input, and none otherwise |
| `EarleyDerivations.WholeTrees` | demo/v8_benchmark.js:8635-8664 | so over the whole input it lists all derivation trees of the first symbol |
| `EarleyCounting.DistinctHeads` | demo/v8_benchmark.js:8162-8188 | a grammar that defines every symbol once has no rule twice |
| `EarleyCounting.EnderOf` | demo/v8_benchmark.js:8591-8614 | a tree tells the rule, and so the configuration, that it ends |
| `EarleyCounting.SplitOnce` | demo/v8_benchmark.js:8591-8614 | a tree splits in one way into what came before the last symbol and the tree of that |
| `EarleyCounting.ListsOnce` | demo/v8_benchmark.js:8635-8664 | for every grammar that has no rule twice under one number, and every input, parse->trees lists no tree twice |
| `EarleyCounting.CountsTrees` | demo/v8_benchmark.js:8714-8746 | then parse->nb-trees, if it ends, is the size of the set of derivation trees |
| `EarleyCounting.TwinsRepeat` | demo/v8_benchmark.js:8635-8664 | a rule that two definitions of a symbol have under one number has its trees listed more than once |
| `EarleyEnds.EndsExactly` | demo/v8_benchmark.js:8565-8664 | parse->trees ends if and only if the nonterminal has finitely many trees there |
| `EarleyEnds.FiniteEnds` | demo/v8_benchmark.js:8565-8664 | and then at a depth that is the size of the largest |
| `EarleyCatalan.TreesSize` | demo/v8_benchmark.js:8123 | the binary trees with n leaves are as many as Catalan's recurrence says |
| `EarleyCatalan.DerivedAreTrees` | demo/v8_benchmark.js:8123 | every derivation tree of s -> a, s -> s s over a word of a's is such a tree over its part of the word |
| `EarleyCatalan.BenchmarkTrees` | demo/v8_benchmark.js:8929-8951 | for every k, parse->trees of k times a ends, and whenever it does it has listed exactly that number of trees |
| `EarleyCatalan.SevenWords` | demo/v8_benchmark.js:8952-8963 | for seven words that is 132 |
| `EarleyTrees.CombineCount` | demo/v8_benchmark.js:8594-8614 | combining lists of trees multiplies their numbers |
| `EarleyTrees.CountingAgrees` | demo/v8_benchmark.js:8565-8713 | at every depth and for every state table nb_deriv_trees is the length of deriv_trees |
| `EarleyTrees.BoundsOnlyBound` | demo/v8_benchmark.js:8565-8634 | greater bounds on depth and chain length change no answer |
| `EarleyTrees.CountingAgreesForGrammar` | demo/v8_benchmark.js:8635-8746 | for the tables of every grammar the two entry points agree as well |
| `AffixPatterns.ExtensionFits` | Source/icu/affixpatternparser.cpp:153-155 | every length below 2^31 fits the four words reserved |
| `AffixPatterns.LiteralWords` | Source/icu/affixpatternparser.cpp:28-34 | the words of a literal encode its length in base 256, lowest byte first, all but the first marked long |
| `AffixPatterns.LookBack` | Source/icu/affixpatternparser.cpp:157-165 | looking back finds exactly the words and the length of a final literal |
| `AffixPatterns.AffixPattern.FindEnding` | Source/icu/affixpatternparser.cpp:157-165 | the backward loop finds the start and the length of a final literal |
| `AffixPatterns.AffixPattern.WriteLength` | Source/icu/affixpatternparser.cpp:169-177 | the new length is written in at most four words |
| `AffixPatterns.WithAllJoins` | Source/icu/affixpatternparser.cpp:212-231 | appending joins the literals at the seam and keeps everything else |
| `AffixPatterns.AffixPattern.AddLiteral` | Source/icu/affixpatternparser.cpp:148-178 | refines adding a literal to the plain token sequence, merged with a literal before it |
| `AffixPatterns.AffixPattern.Add` | Source/icu/affixpatternparser.cpp:180-209 | refines appending a token; flags say which kinds occur |
| `AffixPatterns.AffixPattern.AddCurrent` | Source/icu/affixpatternparser.cpp:217-229 | adds the token the iterator stands at |
| `AffixPatterns.AffixPattern.AppendAll` | Source/icu/affixpatternparser.cpp:211-231 | refines appending all tokens of the other pattern |
| `AffixPatterns.AffixPattern.Remove` | Source/icu/affixpatternparser.cpp:233-241 | the empty pattern |
| `AffixPatterns.AffixPatternIterator.NextToken` | Source/icu/affixpatternparser.cpp:570-595 | moves over exactly the next token of the plain sequence |
| `AffixPatterns.AffixPatternIterator.ReadLength` | Source/icu/affixpatternparser.cpp:583-591 | reads the length from the highest byte down |
| `AffixPatterns.AffixPatternIterator.GetTokenType` | Source/icu/affixpatternparser.cpp:597-600 | its type |
| `AffixPatterns.AffixPatternIterator.GetLiteral` | Source/icu/affixpatternparser.cpp:602-607 | its text: the slices tile the literals |
| `AffixPatterns.AffixPatternIterator.GetTokenLength` | Source/icu/affixpatternparser.cpp:609-614 | its length or count |
| `AffixStrings.NextToken` | Source/icu/affixpatternparser.cpp:38-51 | the size and unit of the token at an index |
| `AffixStrings.ParseAffixString` | Source/icu/affixpatternparser.cpp:503-558 | never an error; the pattern grows by the unit-by-unit parse of the string |
| `AffixStrings.ParseRun` | Source/icu/affixpatternparser.cpp:516-528 | a run of units that stand for themselves becomes one literal |
| `AffixStrings.SpecialUnits` | Source/icu/affixpatternparser.cpp:503-558 | which unit, by its code, an apostrophe makes which token, and that every other stands for itself |
| `AffixStrings.WriteString` | Source/icu/affixpatternparser.cpp:309-351 | appends the string form of the plain sequence |
| `AffixStrings.WriteToken` | Source/icu/affixpatternparser.cpp:315-348 | the string form of one token |
| `AffixStrings.EscapeApostropheInLiteral` | Source/icu/affixpatternparser.cpp:245-261 | doubles apostrophes |
| `AffixStrings.ParseCanonical` | Source/icu/affixpatternparser.cpp:503-558 | every parse is merged and canonical |
| `AffixStrings.RoundTrip` | Source/icu/affixpatternparser.cpp:309-351 | writing and reading gives the pattern back if and only if currencies have one to three signs, no literal is empty and no currency of fewer than three signs precedes a literal that starts with one |
| `AffixStrings.SignAbsorbed` | Source/icu/affixpatternparser.cpp:332-340 | a pattern that is not given back |
| `AffixStrings.ReparseSame` | Source/icu/affixpatternparser.cpp:503-558 | for every string, reparsing the written parse gives the same tokens |
| `AffixStrings.Reparse` | Source/icu/affixpatternparser.cpp:503-558 | the same for the packed words, the literals and the flags, without error |
| `UserAffixStrings.NextUserToken` | Source/icu/affixpatternparser.cpp:53-71 | the run of up to two apostrophes or three signs at an index |
| `UserAffixStrings.AffixPatternAppender.Append` | Source/icu/affixpatternparser.cpp:396-402 | the buffer and the pattern together gain one literal unit, flushed or not |
| `UserAffixStrings.AffixPatternAppender.Flush` | Source/icu/affixpatternparser.cpp:412-417 | moves the buffer into the pattern; an empty buffer adds nothing |
| `UserAffixStrings.AffixPatternAppender.AddSymbol` | Source/icu/affixpatternparser.cpp:457-480 | what was collected goes before a special token |
| `UserAffixStrings.AddUnquoted` | Source/icu/affixpatternparser.cpp:454-483 | a token outside quotes |
| `UserAffixStrings.AddQuoted` | Source/icu/affixpatternparser.cpp:484-498 | a token inside quotes, each of several signs a literal unit |
| `UserAffixStrings.ParseUserAffixString` | Source/icu/affixpatternparser.cpp:434-501 | the parser with its 32-unit buffer reads every string as the unbuffered one |
| `UserAffixStrings.WriteUserString` | Source/icu/affixpatternparser.cpp:353-390 | appends the user form of the plain sequence |
| `UserAffixStrings.WriteUserToken` | Source/icu/affixpatternparser.cpp:359-387 | the user form of one token |
| `UserAffixStrings.EscapeLiteral` | Source/icu/affixpatternparser.cpp:264-307 | quotes specials one by one and doubles apostrophes |
| `UserAffixStrings.UserParseTokens` | Source/icu/affixpatternparser.cpp:434-501 | no parse has an empty literal or a currency that would run on into the next |
| `UserAffixStrings.ParsePairs` | Source/icu/affixpatternparser.cpp:434-501 | the apostrophes of a parse are the apostrophe pairs of the string, quoted or not |
| `UserAffixStrings.ShownPairs` | Source/icu/affixpatternparser.cpp:264-307 | a written pattern has one pair for each of its apostrophes and one more for each clash of quotes |
| `UserAffixStrings.ClashesAre` | Source/icu/affixpatternparser.cpp:264-307 | there is a clash exactly when two specials have nothing or only apostrophes between them |
| `UserAffixStrings.ReadShown` | Source/icu/affixpatternparser.cpp:353-390 | without a clash or a running-on currency what is written is read back |
| `UserAffixStrings.UserRoundTrip` | Source/icu/affixpatternparser.cpp:353-501 | the user form comes back if and only if there is no clash, no currency of fewer than three signs directly before another, no empty literal and one to three signs in each currency |
| `UserAffixStrings.SpecialsClash` | Source/icu/affixpatternparser.cpp:264-307 | a pattern that is not given back |
| `KeywordTrie.InsertMeaning` | Source/JavaScriptCore/KeywordLookupGenerator.py:103-109 | insert changes the token of exactly the key |
| `KeywordTrie.BuildMeaning` | Source/JavaScriptCore/KeywordLookupGenerator.py:214-217 | the trie maps exactly what the list does, the last entry counting |
| `KeywordTrie.CoalesceMeaning` | Source/JavaScriptCore/KeywordLookupGenerator.py:111-126 | coalescing changes no lookup |
| `KeywordTrie.CoalesceShape` | Source/JavaScriptCore/KeywordLookupGenerator.py:111-126 | edges of a node keep starting with different units |
| `KeywordTrie.SortSorts` | Source/JavaScriptCore/KeywordLookupGenerator.py:137 | heavier edges first, the same edges |
| `KeywordTrie.FillShape` | Source/JavaScriptCore/KeywordLookupGenerator.py:128-138 | every full prefix is the path to its node, and siblings are sorted by weight |
| `KeywordTrie.FillMeaning` | Source/JavaScriptCore/KeywordLookupGenerator.py:128-138 | whatever the weights, filling out changes no lookup |
| `KeywordMatcher.CompareExact` | Source/JavaScriptCore/KeywordLookupGenerator.py:221-302 | every comparison macro, on words of either size or unit by unit, compares exactly its characters |
| `KeywordMatcher.EdgeExact` | Source/JavaScriptCore/KeywordLookupGenerator.py:153-166 | along its path an edge matches exactly its own characters, widened from three to four or not |
| `KeywordMatcher.PrintBounded` | Source/JavaScriptCore/KeywordLookupGenerator.py:140-188 | nothing at or beyond maxTokenLength is read, and the macros used exist if and only if every edge has at most eight units |
| `KeywordMatcher.MatcherSound` | Source/JavaScriptCore/KeywordLookupGenerator.py:140-174 | what the nested comparisons answer is a keyword that starts the text and is followed by no identifier part |
| `KeywordMatcher.MatcherComplete` | Source/JavaScriptCore/KeywordLookupGenerator.py:140-174 | every such keyword of identifier characters is answered |
| `KeywordMatcher.MatcherCorrect` | Source/JavaScriptCore/KeywordLookupGenerator.py:140-219 | the generated matcher answers keyword k with token v if and only if k maps to v, starts the text and ends there, for all weights, unit sizes and machines |
| `KeywordMatcher.IdentWhenNone` | Source/JavaScriptCore/KeywordLookupGenerator.py:184-212 | IDENT is answered exactly when no keyword matches |
| `KeywordGenerator.InsertKey` | Source/JavaScriptCore/KeywordLookupGenerator.py:103-109 | insert computes the function the results are about |
| `KeywordGenerator.CoalesceTrie` | Source/JavaScriptCore/KeywordLookupGenerator.py:111-126 | so does coalesce |
| `KeywordGenerator.CoalesceChildren` | Source/JavaScriptCore/KeywordLookupGenerator.py:112-116 | the part that changes the node itself, all that counts at the root |
| `KeywordGenerator.FillOutTrie` | Source/JavaScriptCore/KeywordLookupGenerator.py:128-138 | so does fillOut |
| `KeywordGenerator.PrintSubTree` | Source/JavaScriptCore/KeywordLookupGenerator.py:140-174 | so does printSubTreeAsC |
| `KeywordGenerator.LongestPrefix` | Source/JavaScriptCore/KeywordLookupGenerator.py:176-182 | maxLength |
| `KeywordGenerator.Generate` | Source/JavaScriptCore/KeywordLookupGenerator.py:184-219 | the printed code and maxTokenLength, and that all comparisons stay below it |
| `TransliteratorCache.StepKeepsAnswers` | Source/icu/anytrans.cpp:274-324 | every answer given or about to be given stays the cached object |
| `TransliteratorCache.StepKeepsAccount` | Source/icu/anytrans.cpp:274-324 | every object created stays in the cache, with one thread, or deleted, and never two of these |
| `TransliteratorCache.StepKeepsApart` | Source/icu/anytrans.cpp:274-324 | no object is cached twice, owned twice or deleted twice |
| `TransliteratorCache.RaceSafety` | Source/icu/anytrans.cpp:274-324 | in every interleaving at most one object is published for a script, every successful call answers it, and nothing published, answered or deleted is deleted again |
| `TransliteratorCache.NothingLeaks` | Source/icu/anytrans.cpp:301-321 | when no call is under way every object created has been published or deleted, not both |
| `TransliteratorCache.CacheOnlyGrows` | Source/icu/anytrans.cpp:303-318 | once published an object stays published |
| `TransliteratorCache.ToldRun` | Source/icu/anytrans.cpp:274-324 | in every execution the state of each thread, the cache and all answers are what the calls and outcomes that happened say |
| `TransliteratorCache.AnswersExactly` | Source/icu/anytrans.cpp:274-324 | in every execution every call that is over has one answer: none if and only if its script is the target or invalid, or nothing was published for it when the call looked and its attempts failed; otherwise the published object |
| `TransliteratorCache.PublishExactly` | Source/icu/anytrans.cpp:286-312 | in every execution a call comes to its second mutex section if and only if its first attempt left no error and made an object, or its second did too |
| `TransliteratorCache.StaleErrorSpoilsPivot` | Source/icu/anytrans.cpp:286-300 | an execution in which the pivot makes an object without error and the object is deleted, because of the first attempt's error |
| `ScriptRuns.RunFromIsRun` | Source/icu/anytrans.cpp:128-167 | the computed run has one script besides shared characters and extends as far as it can both ways |
| `ScriptRuns.Overlap` | Source/icu/anytrans.cpp:55-66 | neighbouring runs have different scripts, rising bounds, and overlap in exactly the shared characters between |
| `ScriptRuns.InvalidIsAllShared` | Source/icu/anytrans.cpp:74-79 | the script is INVALID only if the whole text is shared |
| `ScriptRuns.ScriptRunIterator.Next` | Source/icu/anytrans.cpp:128-167 | answers true exactly while the end is not reached, and then moves to the run from the old limit on, strictly ahead |
| `ScriptRuns.NoRunInEmptyText` | Source/icu/anytrans.cpp:128-135 | the first call of next answers false for an empty text |
| `ScriptRuns.ScriptRunIterator.MoveBack` | Source/icu/anytrans.cpp:137-147 | start moves back over shared characters |
| `ScriptRuns.ScriptRunIterator.MoveAhead` | Source/icu/anytrans.cpp:149-162 | limit moves ahead over shared characters and those of one script |
| `ScriptRuns.ScriptRunIterator.AdjustLimit` | Source/icu/anytrans.cpp:169-172 | shifts both limits |
| `ScriptRuns.AllRuns` | Source/icu/anytrans.cpp:128-167 | the runs tile the text |
| `ScriptRuns.Transliterate` | Source/icu/anytrans.cpp:259 | an edit replaces the window and moves limit and contextLimit alike |
| `ScriptRuns.VisitRun` | Source/icu/anytrans.cpp:238-267 | one round for the next run: passed over, start moved behind it, or its part of the window replaced and the limits moved; an inverted window is told |
| `ScriptRuns.EditRun` | Source/icu/anytrans.cpp:258-262 | the window handed on is replaced and all limits follow |
| `ScriptRuns.HandleTransliterate` | Source/icu/anytrans.cpp:230-272 | ends, visits every run of the changing text, leaves the rest untouched and moves pos.limit by the net growth; no window is inverted and pos.start is at most pos.limit if and only if the text was contained |
| `ScriptRuns.HandledProperly` | Source/icu/anytrans.cpp:230-272 | for edits that keep the scripts around them, proper windows and a proper end are exactly containment, read off the text before |
| `ScriptRuns.HandledText` | Source/icu/anytrans.cpp:230-272 | for such edits the text and pos.start are those of handing on, once each and in order, the runs of the text before the call that have a transliterator, incrementally only if they reach the limit; an inverted window is handed on exactly if these runs say so |
| `ScriptRuns.StartPassesLimit` | Source/icu/anytrans.cpp:246-251 | two Latin letters, limit 1, contextLimit 2 and no transliterator: start ends at 2 |
| `ScriptRuns.WindowInverted` | Source/icu/anytrans.cpp:246-259 | a text where the next transliterator is given the window from 2 to 1 |
| `ScriptRuns.NoPostContext` | Source/icu/anytrans.cpp:230-272 | without a post-context every window is proper and start ends at most at the limit |
| `ScriptRuns.ReadingAheadIsSteady` | Source/icu/anytrans.cpp:140-160 | edits keep the scripts around them if a script depends on the text from its position on |
| `ScriptRuns.PairedIsSteady` | Source/icu/anytrans.cpp:140-160 | so they do for scripts of code points, on texts and edits whose surrogates are paired |
| `Agents.StepDelivered` | Source/JavaScriptCore/jsc.cpp:1686-1750 | every step keeps received plus queued equal to the broadcasts by others since registration |
| `Agents.StepWoken` | Source/JavaScriptCore/jsc.cpp:1707-1773 | every step keeps that a sleeper with something waiting has been or will be notified |
| `Agents.StepHandshake` | Source/JavaScriptCore/jsc.cpp:1828-1862 | every step keeps that only a registered worker announces itself and no starter sleeps past that |
| `Agents.DeliveryLaw` | Source/JavaScriptCore/jsc.cpp:1686-1750 | in every execution a worker receives, in order and once each, the broadcasts others make while it is registered |
| `Agents.ReportsInOrder` | Source/JavaScriptCore/jsc.cpp:1752-1773 | reports come out in the order reported |
| `AgentHistory.SerialHistory` | Source/JavaScriptCore/jsc.cpp:1686-1773 | in every execution the logged requests and answers are a history of an object that serves one at a time: tryGetReport, getReport and dequeue answer what that object has first, and none only when it has none |
| `AgentHistory.ProgramOrder` | Source/JavaScriptCore/jsc.cpp:1686-1773 | the entries of a thread serve the sections it entered, one each, in that order |
| `AgentHistory.ReportsAreEntered` | Source/JavaScriptCore/jsc.cpp:1686-1773 | the reports and broadcasts made are those of the sections entered, in that order, but for one under way; what was taken and received is what requests were answered |
| `AgentHistory.SectionCompletes` | Source/JavaScriptCore/jsc.cpp:1686-1773 | a thread in a section that goes on serves its request and leaves, or waits because there is nothing for it, and the lock is free |
| `AgentHistory.StartCompletes` | Source/JavaScriptCore/jsc.cpp:1820-1865 | once the started worker has registered, its announcement lets agent.start return |
| `Agents.NoLostNotification` | Source/JavaScriptCore/jsc.cpp:1707-1773 | while the lock is free no thread sleeps un-notified with something waiting for it |
| `Agents.StartedWorkerHears` | Source/JavaScriptCore/jsc.cpp:1820-1865 | broadcasts made after agent.start returns reach the started worker while it is registered |
| `Agents.LockLaw` | Source/JavaScriptCore/jsc.cpp:1686-1700 | one thread at a time is in a critical section, and the list holds exactly the registered workers, also when one is removed |
| `Utf8.BitsAreSums` | demo/jsc.js:1 | the shifts, masks and unions of the encoder are the quotients, remainders and sums used here |
| `Utf8.ReadBitsAreSums` | demo/jsc.js:1 | so are those of the decoder, for all bytes |
| `Utf8.EncodedIsChar` | demo/jsc.js:1 | the encoding of a code point follows the syntax of section 4 of RFC 3629 if and only if it is no surrogate |
| `Utf8.CharIsEncoded` | demo/jsc.js:1 | and whatever follows that syntax is the encoding of a code point |
| `Utf8.PutPoint` | demo/jsc.js:1 | writes the bytes of a code point if they fit before the limit, else nothing |
| `Utf8.PutPoints` | demo/jsc.js:1 | the loop stops exactly at the first code point that does not fit |
| `Utf8.StringToUTF8Array` | demo/jsc.js:1 | writes the NUL-terminated encoding of the longest code-point prefix that fits, and nothing else |
| `Utf8.LongestIsLongest` | demo/jsc.js:1 | no longer prefix fits |
| `Utf8.LengthBytesUTF8` | demo/jsc.js:1 | the length of the whole encoding |
| `Utf8.UTF8ArrayToString` | demo/jsc.js:1 | decodes up to a NUL or the limit |
| `Utf8.ReadEncoded` | demo/jsc.js:1 | a code point is read back as it was written |
| `Utf8.DecodeEncoded` | demo/jsc.js:1 | of any code points written, those before the first NUL are read |
| `Utf8.RoundTrip` | demo/jsc.js:1 | a string comes back if and only if its surrogates are paired and it has no NUL |
| `Utf8.AllocateUTF8` | demo/jsc.js:1 | with the length function's room the whole string is written |
| `Utf8.ThereAndBack` | demo/jsc.js:1 | the same for the encoder and decoder together |

## Left out

- BigInteger.divRemTo, Classic, Barrett and montConvert: the quotient estimate rests on floating-point division; what montConvert promises of its result is a precondition of MontgomeryModPow.ModPow.
- am2: no engine uses it.
- MontgomeryReduction.Montgomery.Reduce: digit arrays are sequences that grow on writing, and an element never written reads as a marker that is not a digit, where JavaScript reads undefined.
- ModularPower.ModPow: the reducer's operations are functions on values; the two accumulators and their exchange are modelled in MontgomeryModPow, for Montgomery's reducer.
- The other BigInteger operations (bit operations, radix conversion, RSA, primality) and DeltaBlue, RayTrace, NavierStokes, the RegExp benchmark and the Scheme reader.
- SplayTrees.SplayTree.Run: the cost counts the rounds of the splay loop; the walk of findMax to the last node is not counted, and the O(log n) claim does not name it.
- SplayTrees.SplayTree.Insert: keys are reals and values integers; keys that are not numbers are not modelled.
- Prover: rewriting need not end, so it is given fuel, and that more fuel changes no finished answer is proved; the table of 106 lemmas is a parameter.
- SchedulerObject.Scheduler.Schedule: it is given a limit of rounds, since schedule() need not end; blocks and the scalar fields of tasks are records inside the scheduler object, only packets and their lists are in memory.
- EarleyTrees.CountingAgrees: depth and chain length are bounded because circular grammars recur without end; greater bounds change no answer.
- EarleyDerivations.ParseLists: for i <= j; behind j the tree procedures read off the end of a vector.
- EarleyCharts.Chart.Adjoin: the vectors of a table are one value of the chart object, since each has a single owner.
- AffixPatterns.AffixPattern.AppendAll: appending a pattern to itself is excluded, it would change the words it reads; char32Count, currency names and AffixPatternParser::parse rest on other ICU services.
- AffixPatterns.AffixPattern.AddLiteral: literals in all have fewer than 2^31 units, as UnicodeString demands.
- KeywordGenerator.Generate: tries are values, so that coalesce and fillOut change their nodes in place is not modelled; the printed text is kept as a tree; parsing the keyword file is left out, and so are the big-endian macros, one of which refers to itself.
- KeywordMatcher.MatcherCorrect: keywords are of identifier characters, as they are in the keyword file.
- TransliteratorCache.RaceSafety: the two mutex sections are single steps, inserting into the hash table does not fail, and the destructor is not modelled; createInstance may answer anything.
- ScriptRuns.HandleTransliterate: transliterators are functions that edit the window they are given; what they do with an inverted one is not known, so the run stops there. The condition is proved for edits that do not change the scripts around them.
- Agents.StartedWorkerHears: the lock and condition of one agent.start call are taken together with its flag in single steps; the engine itself is not modelled.
- AgentHistory.SectionCompletes: that a thread in a section goes on is up to the operating system, whose scheduling is not modelled.
- Utf8.UTF8ArrayToString: the branch that uses TextDecoder, and the rest of the runtime.
- basictz.cpp, testRegExp.cpp, dynbench.cpp and the rest of jsc.cpp.
