# Verification of libsemigroups

libsemigroups computes with finitely generated semigroups and congruences.  Its
procedures are loops over tables that only make sense together with invariants
no single method mentions.  This project models those procedures in Dafny, in
the imperative form they have, and proves what they compute.

Run `dafny verify dfyconfig.toml` in this directory.

## What is modelled

**Words and congruences.**  A letter is the index of a generator and a word is a
sequence of letters (`Words`, `ShortLex`, `Rank`).  `Derivations` defines the
congruence generated by pairs of words, with pairs that may be applied anywhere,
only in front, or only at the end, so that left, right and two-sided congruences
are instances of one definition.  All theorems about procedures refer to it.

**Todd-Coxeter** (src/cong/tc.cc).  `CosetColumn`, `CosetList`, `CosetTable` and
`CosetTables` hold the threaded preimage chains, the doubly linked list of
active and free cosets with its forwarding addresses, and the tables.
`CosetMerge`, `CosetPending` and `CosetState` are coincidence processing;
`CosetRows`, `CosetTrace` and `CosetMeaning` define new cosets and apply
relations; `CosetProgress`, `CosetCompress` and `CosetExact` are the end of the
procedure and what a finished table says.  `CosetPrefill` and `CayleyPrefill`
start from a Cayley graph.  The class `ToddCoxeter.Enumeration` is the object.

**Froidure-Pin** (src/semigroups.h).  `Evaluation` gives words their values in
an abstract finite semigroup.  `PinWords`, `PinCayley`, `PinState`, `PinRows`,
`PinLevels` and `PinEnumerate` are `enumerate`; `PinPaths`, `PinResults`,
`PinUnique`, `PinPresentation` and `PinRelations` are the queries and the
theorems about a complete enumeration.  The class `FroidurePin.Semigroup` is the
object.

**Knuth-Bendix** (src/rws.cc, src/rws.h).  `Rewriting` is the theory (Newman's
lemma, critical pairs, the Church-Rosser property), `RuleIndex` the index of left
sides by reversed words, `InPlace` the rewriter with two ends in one buffer,
`ConfluenceTest` the critical-pair test, `RuleState`, `Conservation`,
`Completion` and `KnuthBendix` the completion.  Why completion ends with
confluent rules is `Connections` (words connected through smaller words, and the
criterion of Winkler and Buchberger), `Resolution` (which overlaps are looked
at), `Persistence` (which rules and connections survive the emptying of the
stack), `OverlapWalk` (which overlaps have been dealt with), `Reduction` (what
pushing copies of the rules is for) and `Growth` (why that ends).  `Exactness` is
the condition for exact answers; `StrayIterator` and `SkippedRule` are completions
that go wrong.  The class `RewritingSystem.RWS` is the object.

**Pairs and union-find** (src/cong/p.h, src/uf.cc).  `UnionFind` with the class
`UF`; `PairOrbit`, `PairClosure` and `CongruenceByPairs` multiply pairs and
number classes; the class `CongruenceP.P` is the object.

**Elements** (src/elements.cc, src/elements.h, src/semiring.h).  `Bipartitions`
with `StackedGraph`; `PBRs` with `AlternatingPaths`, `DepthFirst` and `PBRLaws`;
`Semirings`, `Matrices` and `ProjectiveMatrices`.

**Congruences in several threads** (src/cong.cc, src/cong.h).  `KillProtocol` is a
state machine over the steps of all threads; `ObviouslyInfinite` is the test made
before a procedure is started, `OwnRelations` reads the defining relations off a
semigroup and runs Todd-Coxeter over it.  `KillFlag` stands for a flag another thread may
set at any time; `Finite` counts finite sets.

## What was found

Where the code does something other than one would like to claim, the code is
kept.  For each of the following there is a concrete state or input, or the
exact condition under which the claim holds, and mostly both.

- A Todd-Coxeter procedure over a semigroup reads its defining relations when it
  is started.  If it is killed just then it has none, but counts as started, and
  never reads them again; it may even finish (`ToddCoxeter.StarvedStart`).  A
  complete table is right about the congruence exactly when the relations were
  read or happen to hold at every coset, and so is `nr_classes`
  (`OwnRelations.ExactIff`, `OwnRelations.CountIff`).
- A finished coset table may have undefined entries.  Then the congruence has
  infinitely many classes, but `nr_classes` still returns a number.  It is right
  exactly when the table is complete (`CosetExact.CountIffComplete`,
  `ToddCoxeter.Enumeration.NrClasses`; a state: `ToddCoxeter.StuckCount`).
- `compress` gives UNDEFINED a number like any coset if a row is free and an entry
  is undefined (a state: `ToddCoxeter.Misnumbered`).  It writes past the last row
  exactly when an undefined entry is met before the last live coset
  (`CosetCompress.Compress`).
- `test_equals` compares normal forms even if the rules are not confluent, and
  answers before completion if both words are short (`RewritingSystem.TooEarly`).
  Its answers are right for all words exactly when the active rules are confluent
  and the rules still waiting say nothing new (`RewritingSystem.RWS.ExactAnswers`).
- `knuth_bendix` declares a system confluent without a test when it comes to its
  natural end.  It first pushes a copy of every active rule, because overlaps of
  a left side with one inside it are not looked at; but when pushing a copy
  removes the rule itself, the next rule is skipped.  So with the rules 012 = 1,
  013 = empty and 01 = empty it ends, calls the system confluent, and tells the
  related words 3 and empty apart (`SkippedRule.SkippedRule`).  At a natural end
  without limits all overlaps looked at are resolved, and the rules are confluent
  exactly if left sides inside others lead to the same words
  (`Resolution.ResolvedConfluent`, `RewritingSystem.RWS.CompletedConfluent`); they
  are so whenever no rule was skipped, and whenever no left side occurred in
  another one before the call (`KnuthBendix.Complete`,
  `RewritingSystem.RWS.KnuthBendix`).
- `overlap` walks along a left side with an iterator and compares the identifiers
  of the rules, but an identifier survives when a rule is removed, rewritten and
  activated again.  The iterator may then lie outside the new left side
  (`StrayIterator.Stray`).  `KnuthBendix.Overlaps` reports this exactly when the
  iterator is about to be used; if it is not reported the congruence is conserved,
  and otherwise nothing is promised of what the original does from there on.
- A run of `P` that is killed while it numbers the classes leaves its numbers
  behind, and the next run appends to them.  `nr_classes` is right exactly when
  that never happened (a state: `CongruenceByPairs.StoppedWhileNumbering`), class
  numbers are right exactly when no element was indexed afterwards
  (`CongruenceP.P.NumbersDecideIff`).
- If the allocation fails in every thread, `winning_data` does not abort, as it is
  meant to, but returns an object that has achieved nothing
  (`KillProtocol.FailureReturned`; the condition: `KillProtocol.GoodIff`).
- `Bipartition::redefine` keeps a number of blocks that was remembered before (a
  state: `Bipartitions.StaleCount`).  It leaves the object right whatever is
  multiplied exactly when none was remembered, or the degree is 0
  (`Bipartitions.Bipartition.RedefineIff`).
- `NaturalSemiring` allows threshold and period with sum 1.  The laws hold exactly
  if the sum is at least 2 (`Semirings.NaturalOk`).

These shape the model, but need no theorem of their own:

- `identify_cosets` orders its arguments once, but after following forwarding
  addresses `lhs` may exceed `rhs`.  Following addresses ends because cosets are
  forwarded to cosets killed later or not at all, not because numbers fall.
- `knuth_bendix` ends by declaring the system confluent without testing it.  The
  model keeps track of whether the flags come from a confluence test.
- `clear_stack` rewrites right sides before the new rule is in the index, and rules
  added from outside are not reduced.  So right sides need not be irreducible, and
  of left sides only that none is a suffix of another is invariant.
- The documentation of `next_relation` (src/semigroups.h:1006) speaks of a
  length-reducing system; relations may join words of equal length, and only the
  short-lex order falls.

## Model

| member | source | states |
|---|---|---|
| `ToddCoxeter.Enumeration.constructor` | src/cong/tc.cc:70-90 | A new object satisfies the invariant that every later call keeps: one live coset, intact lists and chains, entries that follow from the presentation, whichever relations are read later. |
| `ToddCoxeter.Enumeration.Init` | src/cong/tc.cc:92-102 | Afterwards the object counts as started whether or not the defining relations could be read; they are the ones read, or none if reading was stopped, and a second call changes neither; the first call has applied the generating pairs of a one-sided congruence to coset 0, in order, and they hold there. |
| `ToddCoxeter.Enumeration.InitRelations` | src/cong/tc.cc:169-222 | What is traced afterwards generates the congruence of the relations read and the generating pairs, the words being reversed for a left congruence and nothing being added that a prefilled table already has. |
| `ToddCoxeter.StarvedStart` | src/cong/tc.cc:199-202 | With one generator, one element and reading stopped, one round leads to a finished procedure with 0 classes, while the congruence asked for has 1. |
| `ToddCoxeter.Enumeration.StarvedIff` | src/cong/tc.cc:199-202 | A complete table that was started without its relations decides the congruence asked for if and only if it satisfies all those relations at all cosets. |
| `OwnRelations.RunOver` | src/cong/tc.cc:567-574 | The relations are read at most once; the procedure has all of them, or none exactly if the reading at the start was stopped, which needs a kill; then rounds are made as `Run` promises. |
| `OwnRelations.ExactIff` | src/cong.cc:359-384 | For a congruence over a semigroup a complete table decides relatedness, by whatever presentation, if and only if the guard let the relations be read or they hold in the table all the same. |
| `OwnRelations.CountIff` | src/cong/tc.h:47-50 | Under the same condition, and only then, the count returned for a complete table is the number of classes of the congruence over the semigroup. |
| `OwnRelations.SameCongruence` | src/cong.cc:347-386 | Any two presentations of the semigroup give the same left, right or two-sided congruence with the same generating pairs. |
| `CosetProgress.ApplyExtra` | src/cong/tc.cc:97-99 | After the extra pairs have been traced all of them hold at coset 0, earlier ones surviving the identifications later ones cause. |
| `CayleyPrefill.Prefill` | src/cong/tc.cc:104-127 | From an enumerated semigroup presented by the defining relations it builds an object that satisfies the whole invariant of the procedure, for left, right and two-sided congruences. |
| `CayleyPrefill.CayleyFills` | src/cong/tc.cc:109-125 | The shifted Cayley graph is complete, each entry follows from the presentation, each coset is reached by its word, and the defining relations hold at every coset. |
| `CayleyPrefill.OwnRelationsPresent` | src/cong.cc:347-386 | Whatever their order, the relations the semigroup itself hands out are a presentation of it, so the hypothesis of the prefill is met. |
| `OwnRelations.Congruence.InitRelations` | src/cong.cc:347-386 | Given relations stay; those of a semigroup are read once and present it; if killed there are none and a later call tries again; after reading, calls change nothing. |
| `OwnRelations.ReadRelations` | src/cong.cc:356-384 | The list read off the semigroup, first repeated generators and then factorised rules, presents it and is fit for the procedures. |
| `CosetPrefill.InitAfterPrefill` | src/cong/tc.cc:138-166 | From a full table the list and all preimage chains are rebuilt so that every chain lists exactly the preimages, once each, and all cosets are live. |
| `CosetTrace.NewCoset` | src/cong/tc.cc:322-356 | One more live coset, recycled or new, with only the new edge leading to it and its chain holding one preimage; lists, chains and the meaning of all other rows survive. |
| `CosetTrace.Reserve` | src/cong/tc.cc:323-342 | Taking a coset from the free list or appending one keeps the list, the chains and all live rows, and returns a coset that was not live. |
| `CosetMerge.Follow` | src/cong/tc.cc:376-383 | Following forwarding addresses ends, at the live coset a killed one stands for, although addresses need not fall. |
| `CosetState.KillPair` | src/cong/tc.cc:385-456 | Killing one coset keeps lists and chains, and the table stays a quotient of the first one up to the coincidences that still wait; everything identified follows from the presentation. |
| `CosetState.ProcessPairs` | src/cong/tc.cc:375-466 | Coincidence processing ends, with no pair waiting, every pair met having been identified. |
| `CosetState.Identify` | src/cong/tc.cc:359-468 | The new table is a homomorphic image of the old one in which the two cosets coincide; live cosets are live ones of before; every entry still follows from the presentation; identifying a coset with itself changes nothing. |
| `CosetTrace.TracePath` | src/cong/tc.cc:477-500 | Reading a word defines what is missing: the coset returned is where the word leads, no edge that was there is lost, and if nothing is missing, as in a complete table, nothing changes. |
| `CosetTrace.DefineBoth` | src/cong/tc.cc:528-539 | When both images are missing one new coset becomes both, also when both edges come from one coset or bear one letter, with chains intact. |
| `CosetTrace.DefineOne` | src/cong/tc.cc:543-552 | When one image is missing it becomes the other one; chains and meaning survive. |
| `CosetTrace.CloseRelation` | src/cong/tc.cc:520-556 | In all four cases the coset that the traced one has become satisfies the relation afterwards. |
| `CosetTrace.TraceRelation` | src/cong/tc.cc:474-557 | Afterwards the coset satisfies the relation, the table has only grown or been identified, everything follows from the presentation, and a complete table gets no new cosets; if the relation held before nothing changes. |
| `CosetProgress.Round` | src/cong/tc.cc:579-617 | Every relation has been applied at the marker, in order, and the marker is at the next coset; all relations hold at all cosets it has passed, even if cosets, the marker's included, were identified in between. |
| `CosetProgress.ProgressEnd` | src/cong/tc.cc:616-630 | When the marker meets the free list every relation holds at every live coset. |
| `ToddCoxeter.Enumeration.Run` | src/cong/tc.cc:567-632 | From the state before the call, started if it had not been, rounds are made one after the other, at least one, and without a kill exactly as many as asked for (0 wraps around to the largest number) unless the procedure is done before; it is done exactly when the marker meets the free list after one of them, and then only the table may have been renumbered.  The invariant holds however it stops, and a finished object is not changed. |
| `CosetCompress.Compress` | src/cong/tc.cc:225-266 | A complete table is renumbered by a bijection between live cosets and the numbers below their count, 0 staying 0; an incomplete one is renumbered with an entry that is no row if every undefined entry is met after the last live coset, and otherwise, and only then, the copy runs past the new table. |
| `ToddCoxeter.Misnumbered` | src/cong/tc.cc:250-261 | A finished state with a free row and undefined entries, in which UNDEFINED is numbered like a coset. |
| `ToddCoxeter.Enumeration.WordToClassIndex` | src/cong/tc.cc:268-286 | The coset reached from coset 0, minus one, reading the word backwards for a left congruence; UNDEFINED if an entry is missing, and for the empty word; this as long as UNDEFINED has not been numbered like a coset. |
| `ToddCoxeter.Enumeration.AnswerRight` | src/cong/tc.cc:309-318 | Equal defined class numbers mean related words at any time; once done, different ones mean unrelated words; with a complete table all nonempty words have one.  The only table about which this is not said is one in which UNDEFINED was numbered. |
| `ToddCoxeter.Enumeration.CurrentEquals` | src/cong/tc.cc:288-319 | Done or not, and unless stopped, TRUE for different words exactly if both have the same class number, so for every generating pair of a one-sided congruence from the start; TRUE only for related words, FALSE only for unrelated ones when done, TRUE for equal words; when done UNKNOWN exactly if a class number is undefined, so never for nonempty words and a complete table.  All this is about the relations read, which may be none if this call starts the procedure and reading is stopped, and unless UNDEFINED was numbered, which a complete table excludes. |
| `ToddCoxeter.Enumeration.ExactNumbers` | src/cong/tc.cc:282-285 | With a complete table every nonempty word has a class number below the number of classes. |
| `ToddCoxeter.Enumeration.IndexBijective` | src/cong/tc.cc:268-286 | With a complete table class numbers are a bijection from the classes of nonempty words to 0, ..., nr_classes - 1, for all three kinds of congruence and the relations that were read. |
| `ToddCoxeter.Enumeration.NrClasses` | src/cong/tc.h:47-50 | Once done the number returned is the number of classes of nonempty words, for the relations that were read, if and only if the table is complete. |
| `CosetExact.CountIffComplete` | src/cong/tc.h:47-50 | In any finished table the live cosets other than 0 are as many as the classes exactly when no entry of a live row is undefined. |
| `CosetExact.IncompleteUnbounded` | src/cong/tc.cc:616-630 | A finished table with an undefined entry means that for every n there are n pairwise unrelated words. |
| `ToddCoxeter.StuckCount` | src/cong/tc.cc:629-633 | A finished incomplete table whose count of 1 is not the number of classes. |
| `FroidurePin.Semigroup.constructor` | src/semigroups.h:106-195 | For any nonempty list of generators of a finite semigroup, with or without repetitions, the invariant of the enumeration holds for the words of length one. |
| `FroidurePin.ReadGenerators` | src/semigroups.h:165-192 | Every generator has the index of the first generator with its value, and repetitions are noted, in order, and counted as rules. |
| `PinLevels.FirstRow` | src/semigroups.h:1106-1133 | Multiplying a generator by all generators: new words enter in short-lex order, and every entry is the index of the true product. |
| `PinLevels.FillFirst` | src/semigroups.h:1135-1140 | The left entries of the generators are indices of the true products. |
| `PinRows.Reuse` | src/semigroups.h:1156-1165 | If the suffix times the generator is not reduced, the entry read instead of multiplying has been set before, in all three cases, and is the index of the true product. |
| `PinCayley.ShortcutEntry` | src/semigroups.h:1160-1164 | Going through prefix and last letter of the shorter product gives an entry with the value of the word and a word not after it. |
| `PinCayley.ShortcutOne` | src/semigroups.h:1158-1159 | If the shorter product is the identity, the index of the first letter is the index of the product. |
| `PinLevels.LaterRow` | src/semigroups.h:1152-1194 | A whole row is right whether entries are looked up or multiplied, and all words before it in short-lex order are known; it asks to stop only at the limit or when killed. |
| `PinLevels.FillLater` | src/semigroups.h:1199-1205 | When a length is finished its left entries, read through prefixes, are indices of the true products. |
| `PinEnumerate.Enumerate` | src/semigroups.h:1082-1228 | From any stopping point it reaches another one satisfying the same invariant and keeps all words found; unless killed it has either everything, or as many elements as asked for and as in a batch, but once products of longer words are made less than a row beyond that; a limit already reached changes nothing. |
| `FroidurePin.Semigroup.Enumerate` | src/semigroups.h:1082-1237 | The words found are a prefix of those found later; a finished object, or one that has reached the limit, does not change; without a kill the larger of the limit and one more batch is reached or the enumeration is complete, and it is exceeded by less than a row once products of longer words are made. |
| `PinResults.ElementsAreSemigroup` | src/semigroups.h:474-478 | The elements are without repetition members of the generated semigroup, and when `is_done` says so they are all of it. |
| `PinUnique.SameWords` | src/semigroups.h:1082-1228 | Two complete enumerations of the same generators have the same words in the same order, whatever their histories. |
| `PinUnique.CompleteUnique` | src/semigroups.h:1082-1228 | Not only the words: all tables, positions and counts of two complete enumerations agree, whatever limits, batch sizes and kills led there. |
| `FroidurePin.SameSemigroup` | src/semigroups.h:106-195 | So two fully enumerated semigroup objects over the same generators hold the same tables, letters and repetitions. |
| `FroidurePin.Semigroup.ProductByReduction` | src/semigroups.h:614-630 | Both branches end and return the index of the product of the two elements. |
| `FroidurePin.Semigroup.MinimalFactorisation` | src/semigroups.h:893-905 | Enumerates further only if needed; finds a word exactly if there is such an element; the word has its value and is short-lex least among all words with that value. |
| `FroidurePin.Semigroup.NextRelation` | src/semigroups.h:1013-1059 | Successive calls hand out the list of all relations in order, each once, and then the empty relation for ever. |
| `PinRelations.NextRelation` | src/semigroups.h:1018-1058 | The two counters always stand for a place in that list, also across the change from repeated generators to rules. |
| `FroidurePin.Semigroup.ResetNextRelation` | src/semigroups.h:977-980 | The next call starts from the first relation again. |
| `FroidurePin.Semigroup.Presents` | src/semigroups.h:1003-1010 | The relations handed out, `_nrrules` of them, are a complete presentation, and the stored words are exactly the words that they cannot reduce. |
| `PinPresentation.PresentationExact` | src/semigroups.h:1003-1010 | Words have the same value if and only if the listed relations make them equal. |
| `PinPresentation.LeastIffIrreducible` | src/semigroups.h:1003-1010 | A word is the stored one for its value if and only if no relation, used from its greater to its smaller side, applies to it. |
| `PinRelations.RulesDenoted` | src/semigroups.h:1027-1034 | The pairs denoted by the relations handed out are exactly the rules of that presentation. |
| `PinRelations.RelationCount` | src/semigroups.h:1115-1117 | The number of relations handed out is the count `_nrrules` kept during the enumeration. |
| `RuleIndex.IndexLess` | src/rws.h:805-814 | The loop decides the reversed lexicographic order in which a proper suffix is not below the longer word. |
| `RuleIndex.ReverseIncomparable` | src/rws.h:801-804 | Two words are equivalent in this order exactly when one is a suffix of the other. |
| `RuleIndex.IndexIsOrdered` | src/rws.h:801-814 | On left sides none of which is a suffix of another the order is strict and total, and any key splits them into smaller, equivalent and greater ones, as a search tree needs. |
| `RuleIndex.SuffixUnique` | src/rws.h:801-804 | A left side that is a suffix of the key is the only one equivalent to it, so a search finds it. |
| `InPlace.Apply` | src/rws.cc:403-405 | The right side fits between the two ends of the buffer, and nothing unread is overwritten. |
| `InPlace.Rewrite` | src/rws.cc:381-417 | Ends with a word reached by the rules that no rule applies to, in the same buffer; it equals a normal form defined without the buffer, and words shorter than all left sides stay as they are. |
| `InPlace.NormalFormReached` | src/rws.cc:381-417 | The normal form of every word is reached from it by the rules and is irreducible. |
| `ConfluenceTest.CheckOverlap` | src/rws.cc:438-466 | TRUE means the critical pair of this overlap joins, FALSE that the rules are not confluent. |
| `ConfluenceTest.CheckConfluent` | src/rws.cc:424-472 | Unless killed the answer is TRUE exactly if the rules are confluent, although overlaps are only compared by one normal form each. |
| `KnuthBendix.TestConfluent` | src/rws.cc:420-475 | Only the two flags change; a cached answer is returned as it is; otherwise without a kill the flags are afterwards known and come from the test, hence exact. |
| `Completion.Insert` | src/rws.cc:239-268 | The rule becomes active unless its left side and an active one are suffixes of each other, and then nothing changes; all invariants of rules, index and shortest left side are kept. |
| `Completion.Reduce` | src/rws.h:720-725 | Both sides become normal forms and are put in order, which changes nothing about the congruence generated with the active rules. |
| `Conservation.OwnRuleUnused` | src/rws.h:727-730 | Rewriting a right side never uses the rule it belongs to, although that rule is active. |
| `Conservation.RewriteRight` | src/rws.h:727-730 | So replacing a right side in place keeps the generated congruence and the order of the sides. |
| `Completion.Scan` | src/rws.cc:492-505 | All active rules whose left side contains the new one have moved to the stack, the others are in place with reduced right sides, and with the rule in hand the congruence is the same. |
| `Completion.ClearOne` | src/rws.cc:484-511 | One turn is a function of the state; it conserves the generated congruence and brings the end nearer. |
| `Completion.ClearStack` | src/rws.cc:478-527 | Ends, with an empty stack unless killed; even when killed active and waiting rules together generate the same congruence as before; positions in the list stay valid; the confluence flag survives only if the active rules did. |
| `Completion.ClearedUnique` | src/rws.cc:478-479 | However often it is killed and called again, the state in which the stack is empty is the same. |
| `KnuthBendix.PushStack` | src/rws.cc:534-542 | Adds exactly the pair to the generated congruence, keeps flags truthful, positions in the list valid and the rules before them the rules there were, keeps words connected that were, and leaves the stack empty unless killed. |
| `Persistence.CleanedKeeps` | src/rws.cc:478-527 | However far the stack is emptied: words connected through words not larger than some bound stay connected within it; rules before the two positions were there before, with right sides connected below the left side; left sides that do not occur in each other stay so, and rules of which one left side occurs in another are not new; every rule object stays in one place. |
| `KnuthBendix.PushOverlap` | src/rws.cc:557-569 | What is pushed, as a new rule in an object of its own, is the critical pair of the two rules at the index; afterwards its two words are connected below the word they come from. |
| `KnuthBendix.Overlaps` | src/rws.cc:545-579 | Unless stopped (by somebody who may) or stray, the critical pairs of the two rules at all indices above the limit, or above the one where the overlap is longer than allowed, are afterwards connected below the words they come from, provided both rules are still before the first position; the congruence is conserved even if rules are removed, changed or activated again in between.  The iterator is used outside the left side it belongs to only if that was shortened, or exchanged with its right side, under an unchanged identifier; this is reported. |
| `KnuthBendix.OverlapsUpTo` | src/rws.cc:607-620 | If the overlaps of all pairs of rules before the first position are resolved, then without limits they still are when it has moved on by one, in both orders, whatever was removed, rewritten or activated in the meantime; if the rules are the same in the end, each rule before it has been counted twice. |
| `KnuthBendix.OverlapAll` | src/rws.cc:603-630 | It only ends at the end of the list, with too many rules, or with rules that the flags call confluent, and without limits all overlaps that are looked at are then resolved.  If it is given up, exactly as many turns as allowed have been made: in each the position moves on by one unless more words can be rewritten than before, without an overlap limit the overlaps of one more rule are resolved, and whenever more overlaps than the interval have been counted since the last test the rules are tested again and are not confluent. |
| `StrayIterator.Stray` | src/rws.cc:551-577 | Two rules over four letters for which the first push leaves the walked rule active under its identifier with a left side of 3 letters, while the next index is 4 and the limit 3. |
| `KnuthBendix.ReduceRules` | src/rws.cc:594-602 | It ends for all rules, and unless stopped it reaches the end of the list, each step being the push of a copy of the rule at the position and a move by one, so that the rule after one that its own copy removes is skipped; if none is, then wherever a left side occurs in another one both ways to rewrite are connected.  The congruence is conserved. |
| `Growth.CleanedGrows` | src/rws.cc:478-527 | No word becomes longer when the stack is emptied, and either the active rules and the first position stay as they are, or all words that could be rewritten still can and one more of the same bounded length; so copies can only change the rules finitely often. |
| `Reduction.CleanedTamed` | src/rws.cc:594-602 | Pushing the copy of a rule in whose left side another one ends before its end leaves a step inside that left side whose result is connected with the right side below it. |
| `Reduction.TamedConfluent` | src/rws.cc:594-630 | If that holds of all rules with another left side inside their own, and the overlaps looked at are resolved, the rules are confluent. |
| `KnuthBendix.Complete` | src/rws.cc:582-653 | At whatever point it ends, killed or not, the same congruence is generated; a system with an empty stack that is confluent, or known to be, is found to be so at once and its rules are not changed, nor are those of a system with the greatest number of rules.  It is stopped only if somebody may stop it, given up only after copies of the rules have been pushed and the number of turns allowed has been made, and an iterator goes astray only if a rule that was active has become another one under its identifier.  Otherwise, without limits, the flags say confluent, nothing is waiting, the overlaps looked at are resolved, and the rules are confluent if no rule was skipped when copies were pushed. |
| `Connections.ConfluentIffCriticalsLinked` | src/rws.cc:552-569 | Rules with larger left sides are confluent if and only if the two words of every critical pair are connected, by rules used in either direction, through words smaller than the word they come from. |
| `Resolution.ResolvedConfluent` | src/rws.cc:545-579 | Rules whose left sides are no suffixes of each other are confluent if and only if the overlaps that completion looks at are resolved and left sides inside others lead to the same words; the latter is so if no left side occurs in another one. |
| `SkippedRule.SkippedRule` | src/rws.cc:594-602 | Three rules added in turn, the copies pushed with one rule skipped, and no overlaps left to look at: completion ends by itself and calls rules confluent that are not, and related words have different normal forms. |
| `RewritingSystem.RWS.AddRule` | src/rws.cc:228-268 | The generated congruence is that of all pairs added so far, in whichever order their sides came.  Equal words change nothing; otherwise the ordered rule becomes active as it is, in an object of its own, exactly if its left side is suffix-incomparable with the active ones, and is pushed and reduced if not. |
| `RewritingSystem.RWS.IsConfluent` | src/rws.cc:420-475 | The rules are not changed, an answer that comes from the test is TRUE exactly if they are confluent, and a cached one is returned as it is. |
| `RewritingSystem.RWS.KnuthBendix` | src/rws.cc:582-653 | Unless an iterator has gone astray, active and waiting rules still generate the congruence of the pairs added; a confluent system without waiting rules is found to be so at once.  It is not stopped unless somebody may stop it, nor given up before the turns allowed have been made.  At a natural end without limits the system is completed: known to be confluent, nothing waiting, all overlaps looked at resolved; it is confluent exactly if left sides inside others lead to the same words, and whenever no left side occurred in another one before, or no rule was skipped. |
| `RewritingSystem.RWS.CompletedConfluent` | src/rws.cc:635-644 | A completed system is confluent, and its answers are right for all words, if and only if left sides inside others lead to the same words. |
| `RewritingSystem.RWS.Rewrite` | src/rws.cc:381-417 | The result is related to the word by the pairs added, and irreducible. |
| `RewritingSystem.RWS.TestEquals` | src/rws.cc:656-669 | TRUE exactly if the normal forms for the rules at the end agree, and then the words are related.  Unless it answers at once because both words are shorter than all left sides, and without limits, these rules are completed; the answer is right if they are confluent, in particular whenever no left side occurred in another one before the call, or no rule was skipped.  Equal words, short words, and any words if the rules are confluent and none is waiting, get an answer without completion; otherwise there is none only if the turns allowed have been made, or an iterator has gone astray. |
| `RewritingSystem.RWS.ExactAnswers` | src/rws.cc:656-669 | These answers are right for all words if and only if the active rules are confluent and both sides of every waiting rule have one normal form; with an empty stack, if and only if the rules are confluent. |
| `RewritingSystem.TooEarly` | src/rws.cc:660-662 | Two rules and two related words shorter than their left sides, which are told apart before completion. |
| `UnionFind.ClassesByLabels` | src/uf.cc:126-135 | The classes that `find` decides are those of the equivalence the table generates: two numbers have the same root exactly if every labelling constant along the table gives them the same label. |
| `UnionFind.UF.constructor` | src/uf.cc:58-68 | Every number is alone in its class. |
| `UnionFind.UF.Find` | src/uf.cc:126-135 | The loop ends, at the least member of the class. |
| `UnionFind.UF.Unite` | src/uf.cc:138-151 | The new equivalence is the least one containing the old one and the pair: a labelling fits it exactly if it fitted before and agrees on the pair. |
| `UnionFind.UF.Flatten` | src/uf.cc:154-159 | Every entry becomes its root although earlier entries are overwritten meanwhile; the cached blocks still agree. |
| `UnionFind.UF.AddEntry` | src/uf.cc:162-168 | One new class with one member, in the table and in blocks already computed. |
| `UnionFind.UF.NrBlocks` | src/uf.cc:171-187 | Counting increases of the greatest root seen counts the classes, and no class changes. |
| `UnionFind.UF.ResetNextRep` | src/uf.cc:189-192 | The table is flat and the first representative is next. |
| `UnionFind.UF.NextRep` | src/uf.cc:196-202 | Successive calls return the roots in increasing order, missing none, and then the size. |
| `UnionFind.UF.GetBlocks` | src/uf.cc:91-123 | The lists are exactly the classes, each at its root and without repetition, whatever happened since they were last computed. |
| `UnionFind.UF.Join` | src/uf.cc:204-209 | The result is the least equivalence containing both: a labelling fits it exactly if it fits both. |
| `PairOrbit.AddPair` | src/cong/p.h:264-308 | Afterwards the pair is known and the union-find is exactly the equivalence generated by the pairs found; new elements get the next indices, and only a new pair is queued. |
| `PairClosure.AddMultiples` | src/cong/p.h:171-183 | All products of the pair with generators, on the sides asked for, are known, and nothing that is not forced is. |
| `CongruenceByPairs.Search` | src/cong/p.h:161-210 | However it stops, every pair found is forced and every pair taken from the queue has its multiples; how many turns are left falls by exactly the number made. |
| `CongruenceByPairs.RelatedExact` | src/cong/p.h:161-211 | When the queue is empty, same class with unindexed elements alone is the least congruence of the given kind containing the pairs. |
| `CongruenceByPairs.Renumber` | src/cong/p.h:212-228 | Appends the number of classes with earlier roots for every index, and returns the number of classes. |
| `CongruenceByPairs.FirstSeen` | src/cong/p.h:219-227 | Classes are numbered in the order in which their first members were indexed. |
| `CongruenceP.P.constructor` | src/cong/p.h:43-70 | The generating pairs are known and nothing else is related. |
| `CongruenceP.P.Run` | src/cong/p.h:158-245 | Keeps the invariant however it ends; done only if it was not killed; it leaves numbers behind exactly if killed when the queue is empty. |
| `CongruenceP.P.RunToEnd` | src/cong/p.h:152-156 | Ends, and without a kill it is done. |
| `CongruenceP.P.GetIndex` | src/cong/p.h:310-328 | A new element gets the next index and, once done, the next class number, so that the count of classes does not change. |
| `CongruenceP.P.NrClasses` | src/cong/p.h:94-98 | The number returned is that of the classes of the semigroup exactly if no run was killed while numbering; otherwise it is too small by what those runs left. |
| `CongruenceByPairs.StoppedWhileNumbering` | src/cong/p.h:212-243 | A state after such a run in which 0 is returned for one class. |
| `CongruenceP.P.WordToClassIndex` | src/cong/p.h:100-110 | The class number of the element, or that of an earlier index if runs were killed while numbering. |
| `CongruenceP.P.NumbersDecideIff` | src/cong/p.h:100-110 | Equal numbers mean related elements for all indexed elements if and only if none was indexed after a run killed while numbering. |
| `CongruenceP.P.LateElement` | src/cong/p.h:100-110 | Otherwise there are two unrelated elements with equal numbers. |
| `CongruenceP.P.CurrentEquals` | src/cong/p.h:112-127 | Done: the comparison of the numbers, exact if they are.  Before: TRUE exactly if the elements are in one class of those found so far, so for every generating pair from the start; only for related words, never FALSE, and exact as soon as the queue is empty. |
| `Bipartitions.Glue` | src/elements.cc:113-128 | Two blocks are united exactly if they are forced together by the middle layer. |
| `Bipartitions.ClassesConnected` | src/elements.cc:113-128 | Blocks have one root if and only if their vertices are connected in the stacked graph. |
| `Bipartitions.ClassesProduct` | src/elements.cc:130-148 | Numbering roots as they are met gives the product's normalised labels. |
| `Bipartitions.Bipartition.Redefine` | src/elements.cc:88-150 | Points get equal labels exactly if they are connected in the stack, in restricted-growth form; the object stays right if no count was remembered or the degree is 0. |
| `Bipartitions.Bipartition.RedefineIff` | src/elements.cc:162-170 | A remembered count fits all products if and only if there is none or the degree is 0, so in every other case some product makes the object wrong. |
| `Bipartitions.StaleCount` | src/elements.cc:162-170 | Degree 1, a remembered count of 2, and a product with one block. |
| `Bipartitions.Bipartition.ConstNrBlocks` | src/elements.cc:162-170 | The number of labels, from the cache or not, and 0 in degree 0. |
| `Bipartitions.Bipartition.Identity` | src/elements.cc:76-85 | A valid object whose labels are the two equal rows that the next rows show to be neutral. |
| `StackedGraph.ProductUnique` | src/elements.cc:130-148 | The description by connectedness and growth determines the product. |
| `StackedGraph.Associative` | src/elements.cc:88-150 | The product of bipartitions is associative. |
| `StackedGraph.RightIdentity` | src/elements.cc:76-85 | The identity is neutral on the right. |
| `StackedGraph.LeftIdentity` | src/elements.cc:76-85 | The identity is neutral on the left. |
| `PBRs.Buffers.XDfs` | src/elements.cc:413-431 | Every node newly seen is dealt with completely: all it leads to is seen, all it leaves at is marked, and nothing else is; other rows are not touched. |
| `PBRs.Buffers.YDfs` | src/elements.cc:433-451 | The same for the other relation; the mutual recursion ends because unseen nodes become fewer. |
| `DepthFirst.SearchRight` | src/elements.cc:413-451 | A search into a blank row marks exactly the outer points that alternating paths leave at. |
| `PBRs.UniteRows` | src/elements.cc:404-411 | The union of the two rows, the second one starting at its second entry. |
| `PBRs.Buffers.FillRow` | src/elements.cc:343-366 | A row joins a point exactly to where alternating paths from it lead, although rows of earlier searches are reused and a full row is left early. |
| `PBRs.PBR.Redefine` | src/elements.cc:310-402 | The product's lists hold, in increasing order, exactly the points joined by alternating paths. |
| `PBRLaws.ProductUnique` | src/elements.cc:392-400 | This determines the product. |
| `PBRLaws.Associative` | src/elements.cc:310-402 | The product of partitioned binary relations is associative. |
| `PBRLaws.IdentityNeutral` | src/elements.cc:295-308 | The identity is neutral on both sides for relations with ordered lists. |
| `Semirings.BooleansOk` | src/semiring.h:85-108 | All semiring laws; the sum is true if a summand is, the product if both factors are, one is true and zero false. |
| `Semirings.IntegersOk` | src/semiring.h:111-134 | All semiring laws; sum, product, one and zero are those of the integers. |
| `Semirings.MaxPlusOk` | src/semiring.h:139-166 | All semiring laws; the sum is one of the summands and not below either, minus infinity, which is zero, being least; products of numbers are their sums, and one is 0. |
| `Semirings.MinPlusOk` | src/semiring.h:171-199 | All semiring laws; the sum is one of the summands and not above either, infinity, which is zero, being greatest; products of numbers are their sums, and one is 0. |
| `Semirings.TropicalMaxPlusOk` | src/semiring.h:225-267 | The laws hold if and only if the threshold is not negative; sums are greatest elements, products are sums cut at the threshold, and the elements are the numbers up to it and minus infinity. |
| `Semirings.TropicalMinPlusOk` | src/semiring.h:273-318 | The laws hold if and only if the threshold is not negative; sums are least elements, products are sums cut at the threshold, and the elements are the numbers up to it and infinity. |
| `Semirings.CutHomomorphism` | src/semiring.h:255-303 | Cutting at the threshold is a homomorphism from the full semirings for both tropical ones, and changes exactly the values beyond it. |
| `Semirings.ThresholdPeriodExact` | src/semiring.h:374-380 | Two numbers have the same value if and only if they are equal, or both at least the threshold and congruent modulo the period. |
| `Semirings.ThresholdPeriodSum` | src/semiring.h:362-366 | Reducing before adding makes no difference. |
| `Semirings.ThresholdPeriodProduct` | src/semiring.h:354-358 | Reducing before multiplying makes no difference. |
| `Semirings.NaturalOk` | src/semiring.h:324-383 | For every threshold and period all laws hold if and only if their sum is at least 2; sums and products are the numbers in range identified with those of the integers. |
| `Matrices.Matrix.Redefine` | src/elements.h:1105-1131 | Every entry is the sum over all inner indices of products of entries, for any semiring. |
| `Matrices.Matrix.Identity` | src/elements.h:1073-1081 | Steps of one more than the degree hit exactly the diagonal. |
| `Matrices.Associative` | src/elements.h:1105-1131 | The product is associative in every dimension over everything that satisfies the semiring laws. |
| `Matrices.IdentityNeutral` | src/elements.h:1073-1081 | The identity is neutral on both sides. |
| `Matrices.UnitsMultiply` | src/elements.h:1119-1127 | The product of two matrices with one entry each has the product of the entries, in this order, in the row of the first and the column of the second, if the column of the first is the row of the second, and is zero if not. |
| `Matrices.ProductMatrix` | src/elements.h:1105-1131 | Products have entries that the semiring's operations accept. |
| `ProjectiveMatrices.ProjectiveMaxPlusMatrix.constructor` | src/elements.h:1185-1202 | A matrix is in normal form from the start. |
| `ProjectiveMatrices.ProjectiveMaxPlusMatrix.After` | src/elements.h:1210-1217 | Afterwards the entries are the normal form of what they were. |
| `ProjectiveMatrices.ProjectiveMaxPlusMatrix.Redefine` | src/elements.h:1105-1131 | The result is the normal form of the max-plus product. |
| `ProjectiveMatrices.NormalFormExact` | src/elements.h:1210-1217 | Normal forms agree if and only if the matrices differ by a finite scalar. |
| `ProjectiveMatrices.NormalFormGreatest` | src/elements.h:1210-1217 | No entry of a normal form is above 0, and one is 0 exactly if some entry of the matrix is a number; infinite entries stay. |
| `ProjectiveMatrices.NormalFormProduct` | src/elements.h:1210-1217 | Taking normal forms before multiplying makes no difference. |
| `ProjectiveMatrices.ProjectiveAssociative` | src/elements.h:1105-1131 | Products with a normal form after each step are associative. |
| `KillProtocol.StepInv` | src/cong.cc:93-114 | Every step of every thread keeps: at most one holds the lock, and as soon as one has found itself alive there it alone survives, all others being killed in order. |
| `KillProtocol.RunInv` | src/cong.cc:131-136 | So this holds after every interleaving of any number of threads. |
| `KillProtocol.OneSurvives` | src/cong.cc:104-113 | If one object that did not kill itself gets to the lock then in the end exactly one is alive, and it is done or its goal is met. |
| `KillProtocol.WinnerIff` | src/cong.cc:104-113 | There is a survivor exactly if some thread ended without failure with an object that did not kill itself. |
| `KillProtocol.FindWinner` | src/cong.cc:137-161 | The first object that is done or alive; none exactly if all are killed and not done. |
| `KillProtocol.GoodIff` | src/cong.cc:137-157 | The object returned is done, or alive with its goal met, if and only if some such thread ended or the object is done anyway. |
| `KillProtocol.AlwaysGood` | src/cong.cc:86-162 | A good object is returned whenever one such thread ends. |
| `KillProtocol.FailureReturned` | src/cong.cc:100-103 | If every allocation fails an object that has achieved nothing is returned instead of aborting. |
| `KillProtocol.NoDeadlock` | src/cong.cc:104-113 | Unless all threads have ended or one still works, some step is possible. |
| `KillProtocol.StepDecreases` | src/cong.cc:104-136 | Every step other than work of a procedure brings the end nearer. |
| `ObviouslyInfinite.IsObviouslyInfinite` | src/cong.cc:247-290 | If it accepts, then for every n there are n pairwise unrelated words, for every kind of congruence; it accepts exactly if there is no semigroup and there are more generators than pairs or an unused generator. |
| `ObviouslyInfinite.FewPairsUnbounded` | src/cong.cc:254-258 | More generators than pairs leave a generator with pairwise unrelated powers. |
| `ObviouslyInfinite.UnusedUnbounded` | src/cong.cc:260-286 | A generator in no pair has pairwise unrelated powers. |
| `ObviouslyInfinite.Solution` | src/cong.cc:254-258 | The reason: fewer homogeneous integer equations than unknowns have a solution that is not zero. |

## Left out

- ToddCoxeter.Enumeration.Run: without the lookahead phase; says which rounds are made, but not how many are needed, since the procedure need not end, and nothing of where a run that is stopped by another thread is stopped.
- CosetProgress.Round: without the lookahead phase.
- ToddCoxeter.Enumeration.Prefilled: requires a table that is right for the congruence; the original does not check the tables users supply (src/cong/tc.cc:129-136), and an unchecked one carries no promise.
- ToddCoxeter.Enumeration.NrClasses: counts classes of nonempty words, as the original does with coset 0 left out.
- CayleyPrefill.Prefill: requires defining relations that present the semigroup, which `OwnRelations.Congruence.InitRelations` produces.
- FroidurePin.Semigroup.MinimalFactorisation: requires fewer elements than half of `LIMIT_MAX`, so that the limit can be kept without the wrap-around of the index type; the same holds for `Enumerate`, `NextRelation` and `ReadRelations`.
- KnuthBendix.Complete: the main loop is given up after a number of turns, since the procedure need not end; with a limit on rules or overlaps it says what is conserved but not that work beyond the limit is avoided, and the rules are assumed to stay below the number that means no limit.
- KnuthBendix.Overlaps: reads the left side that an object holds at the time by index; where the original would use an iterator that no longer lies in it, it stops and says so.
- UnionFind.UF.GetBlocks: does not say in which order the members of a class are listed.
- PBRLaws.IdentityNeutral: for ordered lists, since products have ordered lists and the constructor does not order its argument.
- OwnRelations.Congruence.InitRelations: the lock is taken for granted, so that calls follow each other; relations set by hand for a congruence over a semigroup are not modelled.
- Todd-Coxeter lookahead (src/cong/tc.cc:584-614): it starts at the coset numbered one more than the current one, which need not be live.
- `Semigroup::add_generators`, `closure` and the idempotents: generators are fixed.
- The alphabet maps of `RWS`, its other orderings and the glue of `KBP` and `KBFP`: words are sequences of letters under SHORTLEX.
- `UF` objects made from a table or by copying: they would only repeat the invariant as a hypothesis.
- The cached ranks and the left and right blocks of `Bipartition`, `BMat8` and `BooleanMat::redefine`.
- The functions `winning_data` calls before its `try` are taken not to throw.
- 64-bit overflow: numbers are mathematical integers, and the infinities are values of their own.
- Reporting, timers, hash values, memory ownership and the thread-local temporary elements.
