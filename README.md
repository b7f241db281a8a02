# A deterministic Turing-machine simulator, modelled in Dafny

The simulator (`introtocomputation/pset6/src/main.rs`) reads a machine
description from a text and an input tape from another text, then prints the
machine's configurations one per line until it reaches the halting state `H`.

A description is a sequence of lines. Empty lines and lines starting with `#`
are ignored. The first three remaining lines are the header:
- Σ, the input symbols;
- Γ, the tape symbols, which must contain the blank `_`;
- Q, the states, which must contain the start state `S` and the halting state `H`.

Every later line is a rule `q0 s0 q1 s1 L|R`, meaning δ(q0, s0) = (q1, s1, move).
The parser also insists that δ be total on (Q ∖ {H}) × Γ, and reports every
pair it lacks. A configuration keeps the tape as two deques around the head
cell. A step writes δ's symbol, moves the head one cell, and reads a blank
whenever it moves off the visited part of the tape.

The model has six modules:
- `Wrappers`: the `Option` and `Result` types.
- `Text`: the two string functions the parser relies on, `str::lines` and
  `str::split_whitespace`. Each is a pure function with a round trip
  (`Lines`/`Unlines`, `Words`/`Unwords`).
- `Machine`: states, symbols, moves, the constants `S`, `H` and `_`, the
  description and the parse errors.
- `Parser`: the reading of a description as pure functions (`DataLines`,
  `ParseTransition`, `Transitions`, `ReadMachine`, `Uncovered`). The relation
  `Outcome` combines them. The imperative `Parse` and `FindMissing` methods,
  loops as in the source, are proved against that relation. `ParserFacts`
  holds the properties of an outcome.
- `Configurations`: a configuration as a value (`Snapshot`, `Next`, `Trace`).
  The class `Configuration` has the source's fields. Its `Step` and `Run`
  methods update them in place and are proved against those functions.
- `Simulator`: what acceptance by the parser guarantees to the stepping
  loop, and worked examples.

Parse errors are a datatype. The source returns a message string, and for an
incomplete δ it prints the missing pairs and then returns a message. The
model returns the missing pairs in the error instead.

Two worked examples show what the code does with a small machine:
- The one-rule machine `S 0 H 1 R` over Σ = {0, 1}, Γ = {0, 1, _} and
  Q = {S, H} is rejected: (S, 1) and (S, _) are missing from δ, and the
  report lists exactly those two pairs (`Simulator.SingleRuleExampleRejected`).
  With rules for those two pairs added, it is accepted
  (`Simulator.CompletedExampleAccepted`).
- On input `0`, the completed machine takes one step: the head ends in
  state H over a blank, with the written `1` in the prefix
  (`Simulator.ExampleTrace`).

## Model

| member | source | states |
|---|---|---|
| Text.Words | introtocomputation/pset6/src/main.rs:52 | `split_whitespace`: skip whitespace, take the run of non-whitespace characters, repeat; its meaning is stated by `Text.WordsJoin` and the lemmas below |
| Text.Lines | introtocomputation/pset6/src/main.rs:48 | `lines`: split at each `\n`, dropping one `\r` just before it, with no empty last line after a final `\n`; its meaning is stated by `Text.LinesUnlinesWith`, `Text.LinesUnlines` and `Text.LinesHaveNoFeed` |
| Text.WordsUnwords | introtocomputation/pset6/src/main.rs:52 | `split_whitespace` recovers any list of tokens joined by spaces |
| Text.WordsAreTokens | introtocomputation/pset6/src/main.rs:80 | every piece `split_whitespace` yields is non-empty and contains no whitespace |
| Text.NoWordsIffBlank | introtocomputation/pset6/src/main.rs:80 | a line yields no tokens exactly when it is whitespace only |
| Text.LeadingSpaceIgnored | introtocomputation/pset6/src/main.rs:52 | leading whitespace, of any kind and length, does not change the tokens |
| Text.SkipSpaceOverBlank | introtocomputation/pset6/src/main.rs:80 | skipping whitespace passes over any whitespace prefix |
| Text.FirstWordStartsLine | introtocomputation/pset6/src/main.rs:49 | a line with tokens starts with whitespace or with its first token's first character |
| Text.SkipSpaceDropsBlank | introtocomputation/pset6/src/main.rs:80 | skipping leading whitespace drops only whitespace and keeps the rest of the line |
| Text.WordLengthStopsAtSpace | introtocomputation/pset6/src/main.rs:80 | a token runs up to the first whitespace character |
| Text.WordsJoin | introtocomputation/pset6/src/main.rs:52 | `split_whitespace` recovers the tokens of any line, whatever whitespace (spaces, tabs, several at once, none at either end) stands around and between them |
| Text.LinesConsCrlf | introtocomputation/pset6/src/main.rs:48 | a line ended by `\r\n` is split off without its `\r` |
| Text.LinesUnlinesWith | introtocomputation/pset6/src/main.rs:48 | `lines` recovers any list of lines, each ended by `\n` or `\r\n`, where a non-empty last line may also have no ending |
| Text.LinesUnlines | introtocomputation/pset6/src/main.rs:48 | `lines` recovers any list of lines (no `\n`, no trailing `\r`) joined by `\n` |
| Text.LinesHaveNoFeed | introtocomputation/pset6/src/main.rs:48 | no line `lines` yields contains `\n` |
| Text.UnwordsIsLine | introtocomputation/pset6/src/main.rs:48 | tokens joined by spaces form one line |
| Machine.Symbols | introtocomputation/pset6/src/main.rs:52 | one symbol per token, in order |
| Parser.DataLines | introtocomputation/pset6/src/main.rs:47-49 | only lines that are non-empty and do not start with `#` survive the filter; `Parser.DataLineKept` states that every such line is kept |
| Parser.DataLinesAppend | introtocomputation/pset6/src/main.rs:47-49 | the filter works line by line and distributes over concatenation |
| Parser.DataLineKept | introtocomputation/pset6/src/main.rs:47-49 | a data line (non-empty, not starting with `#`, so also one with whitespace before a `#`) is kept wherever it stands, in order |
| Parser.CommentLineDropped | introtocomputation/pset6/src/main.rs:49 | an empty or `#` line anywhere leaves the filtered lines unchanged |
| Parser.ParseTransition | introtocomputation/pset6/src/main.rs:80-97 | one rule line: `ReadTransition` of the line's tokens |
| Parser.ReadTransition | introtocomputation/pset6/src/main.rs:81-97 | the fields are accepted iff there are exactly five and the fifth is `L` or `R`, which gives the move |
| Parser.ParseTransitionAccepts | introtocomputation/pset6/src/main.rs:80-97 | a rule line is accepted iff it has exactly five tokens and the fifth is `L` or `R`; it then reads as (q0, s0) ↦ (q1, s1, move) |
| Parser.Transitions | introtocomputation/pset6/src/main.rs:78-99 | δ built by inserting each rule line in turn; no lines give the empty δ, and the only error is the invalid-transition one |
| Parser.TransitionsFailIff | introtocomputation/pset6/src/main.rs:79-99 | the rule lines fail iff one of them is not a rule, and the error is then the invalid-transition one |
| Parser.TransitionsLast | introtocomputation/pset6/src/main.rs:98 | a successful reading is the reading of the earlier lines with the last line's entry inserted |
| Parser.TransitionsKeys | introtocomputation/pset6/src/main.rs:78-99 | δ's keys are exactly the (state, symbol) pairs of the rule lines |
| Parser.LastWriterWins | introtocomputation/pset6/src/main.rs:98 | δ holds, for a line's key, the value of the last line with that key |
| Parser.ReadMachine | introtocomputation/pset6/src/main.rs:47-99 | the header and rule reading: a successful read has `_` in Γ and `S`, `H` in Q; a failed read never reports missing pairs |
| Parser.Uncovered | introtocomputation/pset6/src/main.rs:103-113 | every gap is a pair of a non-halting state of Q and a symbol of Γ that δ lacks |
| Parser.UncoveredEmptyIffTotal | introtocomputation/pset6/src/main.rs:103-114 | no pair is uncovered exactly when δ has a rule for every non-halting state and every symbol of Γ |
| Parser.EnumeratesAppend | introtocomputation/pset6/src/main.rs:110 | pushing one new pair extends a list of each pair once |
| Parser.EnumeratesConcat | introtocomputation/pset6/src/main.rs:104-113 | the rows of two distinct states together list both sets of gaps |
| Parser.UncoveredStates | introtocomputation/pset6/src/main.rs:104-107 | the gaps of a set of states are the disjoint union of each state's; `H` has none |
| Parser.UncoveredSymbols | introtocomputation/pset6/src/main.rs:108-111 | one more symbol adds at most one gap, and a fresh symbol's gap is not yet listed |
| Parser.StateDone | introtocomputation/pset6/src/main.rs:104-113 | one turn of the outer loop extends the enumeration by that state's row, or by nothing for `H` |
| Parser.FindMissingInRow | introtocomputation/pset6/src/main.rs:108-112 | the inner loop keeps the list it appends to and adds each gap of the state exactly once |
| Parser.FindMissing | introtocomputation/pset6/src/main.rs:103-113 | whatever order the sets are iterated in, the list holds every uncovered pair exactly once |
| Parser.Outcome | introtocomputation/pset6/src/main.rs:45-127 | the results `parse` may give; an accepted result is exactly the description read |
| Parser.Parse | introtocomputation/pset6/src/main.rs:45-127 | the result is an outcome the pure reading allows: the header error, the rule error, the missing pairs, or the description |
| ParserFacts.EnumeratesExactlyOnce | introtocomputation/pset6/src/main.rs:103-113 | a list that enumerates a set holds exactly its elements and no repeats |
| ParserFacts.AcceptedIsTotal | introtocomputation/pset6/src/main.rs:103-126 | an accepted description has `_` in Γ, `S` and `H` in Q, and a rule for every non-halting state and symbol |
| ParserFacts.IncompleteReportsEveryGap | introtocomputation/pset6/src/main.rs:103-119 | after the header and rules are read, parsing fails iff some pair is uncovered, and the report lists exactly those pairs, each once |
| ParserFacts.HeaderErrorsInOrder | introtocomputation/pset6/src/main.rs:51-97 | each error is characterised exactly: Σ missing, Γ missing, `_` missing, Q missing, `S` missing, `H` missing, then a bad rule line, each only when the earlier checks pass |
| ParserFacts.CommentsIgnoredAnywhere | introtocomputation/pset6/src/main.rs:47-49 | for a text written with `\n` line endings (no line ending in `\r`), inserting an empty or `#` line anywhere does not change the possible outcomes; for any line endings, `Parser.CommentLineDropped` states the same on the split lines |
| ParserFacts.BlankLineIsMalformedRule | introtocomputation/pset6/src/main.rs:49-97 | a whitespace-only data line at any position after a header that passes its checks is not skipped; it is a rule with no fields and the description is rejected as malformed |
| ParserFacts.NoRulesAllMissing | introtocomputation/pset6/src/main.rs:103-119 | a description with no rules is rejected and lists every (non-halting state, symbol) pair, (S, _) among them |
| ParserFacts.AcceptedKeepsLastRule | introtocomputation/pset6/src/main.rs:98 | in an accepted description, δ holds each rule as given by its last line |
| Configurations.Initial | introtocomputation/pset6/src/main.rs:130-140 | `instantiate` as a value: empty prefix, start state, and one cell per input token (one blank for no tokens) |
| Configurations.InitialTape | introtocomputation/pset6/src/main.rs:130-140 | the machine starts in `S` at the left end; the tape is the input tokens, or a single blank |
| Configurations.Next | introtocomputation/pset6/src/main.rs:152-165 | `step` as a value: the head takes δ's state, and the visited tape keeps its length or grows by one cell |
| Configurations.StepOnDeques | introtocomputation/pset6/src/main.rs:152-165 | a step takes δ's state; right pushes the written symbol onto the prefix's back and pops the suffix's front into the head (blank if empty); left is the mirror image |
| Configurations.StepWritesAndMoves | introtocomputation/pset6/src/main.rs:152-165 | on the whole tape, a step overwrites the head cell and moves one cell; a blank cell is added exactly when the head leaves the visited part |
| Configurations.StepTapeLength | introtocomputation/pset6/src/main.rs:157-162 | the visited tape grows by one exactly when the side popped from was empty |
| Configurations.Trace | introtocomputation/pset6/src/main.rs:209-217 | the displayed configurations: the first one, then one per step at most `fuel` times |
| Configurations.TraceSteps | introtocomputation/pset6/src/main.rs:209-217 | the displayed trace starts with the initial configuration; each entry is one step from the one before; only the last may be halted; it stops at halting or when the fuel runs out |
| Configurations.TraceExtends | introtocomputation/pset6/src/main.rs:212-217 | with more fuel, the trace only grows: the shorter one is a prefix |
| Configurations.StepStaysOnAlphabet | introtocomputation/pset6/src/main.rs:152-165 | if δ's values lie in Q × Γ, a step keeps the state in Q and the tape in Γ |
| Configurations.TotalMachineRuns | introtocomputation/pset6/src/main.rs:153 | on a total δ whose values lie in Q × Γ, the lookup in `step` never fails, for any number of steps |
| Configurations.InitialOnAlphabet | introtocomputation/pset6/src/main.rs:130-140 | an input made of symbols of Γ starts within Q and Γ |
| Configurations.Configuration.Instantiate | introtocomputation/pset6/src/main.rs:130-140 | the new configuration holds the machine and the initial snapshot of the input |
| Configurations.Configuration.IsHalted | introtocomputation/pset6/src/main.rs:167-169 | `halted` holds exactly when the head's state is `H` |
| Configurations.Configuration.Step | introtocomputation/pset6/src/main.rs:152-165 | the fields after `step` are the pure step of the fields before it |
| Configurations.Configuration.Run | introtocomputation/pset6/src/main.rs:209-217 | the displayed configurations are the trace of the initial one, and the object ends at the last of them |
| Simulator.AcceptedStepDefined | introtocomputation/pset6/src/main.rs:153 | after a successful parse, `step` is defined on every non-halted head in Q × Γ |
| Simulator.AcceptedMachineRuns | introtocomputation/pset6/src/main.rs:205-217 | an accepted machine whose rules stay in Q × Γ never gets stuck on an input drawn from Γ |
| Simulator.SplitLinesAreData | introtocomputation/pset6/src/main.rs:49 | non-empty lines whose tokens do not start with `#` all pass the filter |
| Simulator.ExampleHeader | introtocomputation/pset6/src/main.rs:51-68 | the example's header lines read as Σ = {0, 1}, Γ = {0, 1, _} and Q = {S, H} |
| Simulator.SingleRuleRead | introtocomputation/pset6/src/main.rs:45-99 | with a leading comment line, the text of the single-rule example reads as its header and its one rule |
| Simulator.SingleRuleExampleRejected | introtocomputation/pset6/src/main.rs:103-119 | the single-rule example (`S 0 H 1 R` only) is rejected, and the report lists exactly (S, 1) and (S, _) |
| Simulator.CompletedRules | introtocomputation/pset6/src/main.rs:78-99 | the three rules of the completed example build its δ |
| Simulator.CompletedRead | introtocomputation/pset6/src/main.rs:45-99 | the completed example reads with the empty line among its rules skipped |
| Simulator.CompletedExampleAccepted | introtocomputation/pset6/src/main.rs:45-127 | the completed example is accepted, with exactly its three rules |
| Simulator.ExampleTrace | introtocomputation/pset6/src/main.rs:209-217 | on input `0` the completed example shows S over 0, then H over a blank with 1 to its left, and stops |
| Simulator.StrayRead | introtocomputation/pset6/src/main.rs:51-99 | a whitespace-only Σ line is read as the empty Σ, and a rule's target state is not checked against Q |
| Simulator.UncheckedTargetGetsStuck | introtocomputation/pset6/src/main.rs:90 | a machine whose only rule goes to a state outside Q is accepted, yet its first step reaches a non-halted head with no rule |

## Left out

- Display: `Configuration::display` and its terminal colours are not modelled. The model returns each displayed configuration as an entry of the trace.
- Command-line arguments and file reads in `main` are not modelled. The description and input texts are parameters.
- The printing of the missing pairs is not modelled. The model returns them in `IncompleteDelta` instead of printing them before returning the message.
- Set iteration order is left unknown. The order in which `HashSet` yields states and symbols is a nondeterministic choice (`:|`). That is why `Parse` is specified by the relation `Outcome` rather than by a function.
- Whitespace is ASCII only (space, tab, line feed, carriage return, vertical tab, form feed). `split_whitespace` also splits on Unicode whitespace.
- `lines` is modelled as splitting on `\n`, dropping a `\r` only just before a `\n`, with no empty final line after a trailing `\n`. A trailing `\r` without a `\n` is kept.
- Configurations.Configuration.Step: requires δ to hold the head. The source panics when the lookup `delta[&self.head]` fails; the model shows the machines that never reach that point (`Configurations.TotalMachineRuns`) and one that does (`Simulator.UncheckedTargetGetsStuck`).
- Configurations.Configuration.Run: the halting loop is bounded by `fuel` steps, because the source loop need not terminate. With fuel to spare, the trace is the source's output.
- The validations the source leaves as TODOs are not performed, as in the code:
  - rule states are not checked against Q;
  - rule symbols are not checked against Σ or Γ;
  - input symbols are not checked against Σ.
- Σ is read and stored but not consulted anywhere, as in the code.
- The examples in `Simulator` are stated for every text whose lines split into the shown tokens, not for one fixed string.
