/**
 * The simulator as a whole: what the parser's acceptance guarantees to the
 * stepping loop, and worked examples of machine texts and their runs.
 */
module Simulator {
  import opened Wrappers
  import opened Text
  import opened Machine
  import opened Parser
  import opened ParserFacts
  import opened Configurations

  /**
   * On an accepted description, δ holds every head whose state is in Q
   * other than the halting state and whose symbol is in Γ, so `step`
   * cannot fail there.
   */
  lemma AcceptedStepDefined(text: string, m: MachineDescription, c: Snapshot)
    requires Outcome(text, Success(m))
    requires c.head.0 in m.q && c.head.1 in m.gamma && !Halted(c)
    ensures c.head in m.delta
  {
    AcceptedIsTotal(text, m);
  }

  /**
   * An accepted description whose rules only name states of Q and symbols
   * of Γ, run on an input made of symbols of Γ, never reaches a head δ
   * lacks, whatever the number of steps.
   */
  lemma AcceptedMachineRuns(text: string, m: MachineDescription, input: string, fuel: nat)
    requires Outcome(text, Success(m)) && TargetsInAlphabet(m)
    requires forall w :: w in Words(input) ==> Symbol(w) in m.gamma
    ensures CanRun(m.delta, Initial(input), fuel)
  {
    AcceptedIsTotal(text, m);
    InitialOnAlphabet(m, input);
    TotalMachineRuns(m, Initial(input), fuel);
  }

  // ---------------------------------------------------------------------------
  // Worked examples, each stated for every text whose lines split into the
  // tokens shown, however those tokens are spaced.

  /** `ls` are lines that split into the token lists `wss`, one for one. */
  predicate SplitsInto(ls: seq<string>, wss: seq<seq<string>>) {
    |ls| == |wss| && forall i :: 0 <= i < |ls| ==> Words(ls[i]) == wss[i]
  }

  /** Tokens whose first does not open a comment. */
  predicate DataTokens(ws: seq<string>) {
    ws == [] || (ws[0] != [] && ws[0][0] != '#')
  }

  /** Lines whose tokens open no comment, and which are not empty, all pass the comment filter. */
  lemma {:induction false} SplitLinesAreData(ls: seq<string>, wss: seq<seq<string>>)
    requires SplitsInto(ls, wss)
    requires forall i :: 0 <= i < |ls| ==> DataTokens(wss[i]) && (wss[i] == [] ==> ls[i] != [])
    ensures DataLines(ls) == ls
  {
    if ls != [] {
      if wss[0] == [] {
        NoWordsIffBlank(ls[0]);
      } else {
        FirstWordStartsLine(ls[0]);
      }
      assert IsData(ls[0]);
      assert SplitsInto(ls[1..], wss[1..]) by {
        forall i | 0 <= i < |ls[1..]| ensures Words(ls[1..][i]) == wss[1..][i] {
          assert ls[1..][i] == ls[i + 1];
        }
      }
      SplitLinesAreData(ls[1..], wss[1..]);
    }
  }

  /** A text whose data lines are a well-formed header and rules reads as them. */
  lemma ReadsAs(text: string, data: seq<string>, d: Delta)
    requires DataLines(Lines(text)) == data && |data| >= 3
    requires BLANK in SymbolSet(data[1]) && START in StateSet(data[2]) && HALT in StateSet(data[2])
    requires Transitions(data[3..]) == Success(d)
    ensures ReadMachine(text) == Success(MachineDescription(SymbolSet(data[0]), SymbolSet(data[1]), StateSet(data[2]), d))
  {
  }

  /** A single rule line that reads as `t` makes δ the one entry of `t`. */
  lemma OneRule(l: string, t: Transition)
    requires ParseTransition(l) == Some(t)
    ensures Transitions([l]) == Success(map[t.Key() := t.Value()])
  {
    assert [l][..0] == [];
  }

  /** One more rule line that reads as `t` adds (or replaces) the entry of `t`. */
  lemma MoreRules(rules: seq<string>, l: string, t: Transition, d: Delta)
    requires Transitions(rules) == Success(d) && ParseTransition(l) == Some(t)
    ensures Transitions(rules + [l]) == Success(d[t.Key() := t.Value()])
  {
    assert (rules + [l])[..|rules|] == rules;
  }

  const SIGMA_WORDS := ["0", "1"]
  const GAMMA_WORDS := ["0", "1", "_"]
  const STATES_WORDS := ["S", "H"]
  const RULE_S0 := ["S", "0", "H", "1", "R"]
  const RULE_S1 := ["S", "1", "H", "1", "R"]
  const RULE_SB := ["S", "_", "H", "_", "R"]

  /** Σ, Γ and Q of the example machine. */
  const SIGMA := {Symbol("0"), Symbol("1")}
  const GAMMA := {Symbol("0"), Symbol("1"), BLANK}
  const STATES := {START, HALT}

  /** The header lines of the example machine read as its Σ, Γ and Q. */
  lemma ExampleHeader(sigma: string, gamma: string, states: string)
    requires Words(sigma) == SIGMA_WORDS && Words(gamma) == GAMMA_WORDS && Words(states) == STATES_WORDS
    ensures SymbolSet(sigma) == SIGMA && SymbolSet(gamma) == GAMMA && StateSet(states) == STATES
  {
    assert SymbolSet(sigma) == SIGMA by {
      assert SIGMA_WORDS[0] in Words(sigma) && SIGMA_WORDS[1] in Words(sigma);
    }
    assert SymbolSet(gamma) == GAMMA by {
      assert GAMMA_WORDS[0] in Words(gamma) && GAMMA_WORDS[1] in Words(gamma) && GAMMA_WORDS[2] in Words(gamma);
    }
    assert StateSet(states) == STATES by {
      assert STATES_WORDS[0] in Words(states) && STATES_WORDS[1] in Words(states);
    }
  }

  /** A one-rule machine, after a comment line: Σ, Γ, Q and the single rule `S 0 H 1 R`. */
  predicate SingleRuleText(text: string) {
    var ls := Lines(text);
    |ls| == 5 && !IsData(ls[0]) && SplitsInto(ls[1..], [SIGMA_WORDS, GAMMA_WORDS, STATES_WORDS, RULE_S0])
  }

  /** The single rule's δ. */
  const SINGLE_RULE_DELTA: Delta := map[(START, Symbol("0")) := (HALT, Symbol("1"), Right)]

  /** The example machine's text reads as its header and its one rule. */
  lemma SingleRuleRead(text: string)
    requires SingleRuleText(text)
    ensures ReadMachine(text) == Success(MachineDescription(SIGMA, GAMMA, STATES, SINGLE_RULE_DELTA))
  {
    var ls := Lines(text);
    var data := ls[1..];
    assert DataLines(ls) == data by {
      assert ls == [ls[0]] + data;
      CommentLineDropped([], ls[0], data);
      SplitLinesAreData(data, [SIGMA_WORDS, GAMMA_WORDS, STATES_WORDS, RULE_S0]);
    }
    assert SymbolSet(data[0]) == SIGMA && SymbolSet(data[1]) == GAMMA && StateSet(data[2]) == STATES by {
      ExampleHeader(data[0], data[1], data[2]);
    }
    assert Transitions(data[3..]) == Success(SINGLE_RULE_DELTA) by {
      assert data[3..] == [data[3]];
      OneRule(data[3], Transition(START, Symbol("0"), HALT, Symbol("1"), Right));
    }
    ReadsAs(text, data, SINGLE_RULE_DELTA);
  }

  /**
   * The one-rule machine (Σ = {0, 1}, Γ = {0, 1, _}, Q = {S, H},
   * the single rule `S 0 H 1 R`) is rejected: δ has no rule for (S, 1) or
   * (S, _), and the report lists exactly those two pairs.
   */
  lemma SingleRuleExampleRejected(text: string, r: Result<MachineDescription, ParseError>)
    requires SingleRuleText(text) && Outcome(text, r)
    ensures r.Failure? && r.error.IncompleteDelta?
    ensures |r.error.missing| == 2
    ensures forall p :: p in r.error.missing <==> p == (START, Symbol("1")) || p == (START, BLANK)
  {
    SingleRuleRead(text);
    var gaps := Uncovered(STATES, GAMMA, SINGLE_RULE_DELTA);
    assert (START, Symbol("1")) in gaps && (START, BLANK) in gaps;
    assert gaps == {(START, Symbol("1")), (START, BLANK)};
    EnumeratesExactlyOnce(r.error.missing, gaps);
    assert |multiset(r.error.missing)| == |multiset(gaps)|;
  }

  /** δ of the example machine once completed so that the parser accepts it. */
  const EXAMPLE_DELTA: Delta := map[
    (START, Symbol("0")) := (HALT, Symbol("1"), Right),
    (START, Symbol("1")) := (HALT, Symbol("1"), Right),
    (START, BLANK) := (HALT, BLANK, Right)]

  /** The example machine with rules for (S, 1) and (S, _) added, after an empty line. */
  predicate CompletedText(text: string) {
    var ls := Lines(text);
    |ls| == 7 && ls[4] == ""
      && SplitsInto(ls[..4] + ls[5..], [SIGMA_WORDS, GAMMA_WORDS, STATES_WORDS, RULE_S0, RULE_S1, RULE_SB])
  }

  /** The three rule lines of the completed machine build its δ. */
  lemma CompletedRules(rules: seq<string>)
    requires SplitsInto(rules, [RULE_S0, RULE_S1, RULE_SB])
    ensures Transitions(rules) == Success(EXAMPLE_DELTA)
  {
    OneRule(rules[0], Transition(START, Symbol("0"), HALT, Symbol("1"), Right));
    MoreRules([rules[0]], rules[1], Transition(START, Symbol("1"), HALT, Symbol("1"), Right), SINGLE_RULE_DELTA);
    MoreRules([rules[0], rules[1]], rules[2], Transition(START, BLANK, HALT, BLANK, Right),
              map[(START, Symbol("0")) := (HALT, Symbol("1"), Right), (START, Symbol("1")) := (HALT, Symbol("1"), Right)]);
    assert rules == [rules[0], rules[1]] + [rules[2]] && [rules[0], rules[1]] == [rules[0]] + [rules[1]];
  }

  /** The data lines of the completed example's text. */
  function CompletedData(text: string): seq<string>
    requires CompletedText(text)
  {
    Lines(text)[..4] + Lines(text)[5..]
  }

  lemma CompletedDataLines(text: string)
    requires CompletedText(text)
    ensures DataLines(Lines(text)) == CompletedData(text)
    ensures SplitsInto(CompletedData(text), [SIGMA_WORDS, GAMMA_WORDS, STATES_WORDS, RULE_S0, RULE_S1, RULE_SB])
  {
    var ls := Lines(text);
    var data := CompletedData(text);
    assert ls == ls[..4] + [ls[4]] + ls[5..];
    CommentLineDropped(ls[..4], ls[4], ls[5..]);
    SplitLinesAreData(data, [SIGMA_WORDS, GAMMA_WORDS, STATES_WORDS, RULE_S0, RULE_S1, RULE_SB]);
  }

  lemma CompletedRulesRead(data: seq<string>)
    requires SplitsInto(data, [SIGMA_WORDS, GAMMA_WORDS, STATES_WORDS, RULE_S0, RULE_S1, RULE_SB])
    ensures Transitions(data[3..]) == Success(EXAMPLE_DELTA)
  {
    assert SplitsInto(data[3..], [RULE_S0, RULE_S1, RULE_SB]) by {
      assert data[3..][0] == data[3] && data[3..][1] == data[4] && data[3..][2] == data[5];
    }
    CompletedRules(data[3..]);
  }

  lemma CompletedRead(text: string)
    requires CompletedText(text)
    ensures ReadMachine(text) == Success(MachineDescription(SIGMA, GAMMA, STATES, EXAMPLE_DELTA))
  {
    var data := CompletedData(text);
    CompletedDataLines(text);
    ExampleHeader(data[0], data[1], data[2]);
    CompletedRulesRead(data);
    ReadsAs(text, data, EXAMPLE_DELTA);
  }

  /** The completed example machine is accepted, with exactly its three rules. */
  lemma CompletedExampleAccepted(text: string, r: Result<MachineDescription, ParseError>)
    requires CompletedText(text) && Outcome(text, r)
    ensures r == Success(MachineDescription(SIGMA, GAMMA, STATES, EXAMPLE_DELTA))
  {
    CompletedRead(text);
    assert Uncovered(STATES, GAMMA, EXAMPLE_DELTA) == {};
  }

  /**
   * On input `0` the completed machine shows two
   * configurations, S over 0 on an otherwise empty tape, then H over a
   * blank with the written 1 to its left.
   */
  lemma ExampleTrace(input: string, fuel: nat)
    requires Words(input) == ["0"] && fuel >= 1
    ensures CanRun(EXAMPLE_DELTA, Initial(input), fuel)
    ensures Trace(EXAMPLE_DELTA, Initial(input), fuel)
         == [Snapshot([], (START, Symbol("0")), []), Snapshot([Symbol("1")], (HALT, BLANK), [])]
  {
    var c := Initial(input);
    assert c == Snapshot([], (START, Symbol("0")), []);
    assert Next(EXAMPLE_DELTA, c) == Snapshot([Symbol("1")], (HALT, BLANK), []);
  }

  /** δ of a machine whose one rule `S _ X _ R` leads to a state X that is not in Q. */
  const STRAY_DELTA: Delta := map[(START, BLANK) := (State("X"), BLANK, Right)]

  /** Σ on a whitespace-only line (so empty), Γ = {_}, Q = {S, H} and the rule `S _ X _ R`. */
  predicate StrayText(text: string) {
    var ls := Lines(text);
    |ls| == 4 && ls[0] != [] && SplitsInto(ls, [[], ["_"], STATES_WORDS, ["S", "_", "X", "_", "R"]])
  }

  lemma StrayRead(text: string)
    requires StrayText(text)
    ensures ReadMachine(text) == Success(MachineDescription({}, {BLANK}, STATES, STRAY_DELTA))
  {
    var ls := Lines(text);
    SplitLinesAreData(ls, [[], ["_"], STATES_WORDS, ["S", "_", "X", "_", "R"]]);
    assert SymbolSet(ls[0]) == {};
    assert SymbolSet(ls[1]) == {BLANK} by { assert "_" in Words(ls[1]); }
    assert StateSet(ls[2]) == STATES by { assert "S" in Words(ls[2]) && "H" in Words(ls[2]); }
    assert ls[3..] == [ls[3]];
    OneRule(ls[3], Transition(START, BLANK, State("X"), BLANK, Right));
    ReadsAs(text, ls, STRAY_DELTA);
  }

  /**
   * Target states are not checked: the machine whose text is `StrayText` is
   * accepted, yet from the blank tape one step reaches a head δ lacks without
   * having halted, where `step` fails.
   */
  lemma UncheckedTargetGetsStuck(text: string, r: Result<MachineDescription, ParseError>)
    requires StrayText(text) && Outcome(text, r)
    ensures r == Success(MachineDescription({}, {BLANK}, STATES, STRAY_DELTA))
    ensures !CanRun(STRAY_DELTA, Initial(""), 2)
    ensures var c := Next(STRAY_DELTA, Initial(""));
      !Halted(c) && c.head !in STRAY_DELTA
  {
    StrayRead(text);
    assert Uncovered(STATES, {BLANK}, STRAY_DELTA) == {};
    assert Initial("") == Snapshot([], (START, BLANK), []);
  }
}
