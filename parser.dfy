/**
 * Reading a machine description (`MachineDescription::parse`).
 *
 * The pure part states, line by line, what the text means: the data lines
 * (`ReadMachine`, `Transitions`) and the pairs δ leaves uncovered
 * (`Uncovered`). The imperative part (`Parse`, `FindMissing`) performs the
 * same loops the parser performs, and `Outcome` relates the two.
 */
module Parser {
  import opened Wrappers
  import opened Text
  import opened Machine

  // ---------------------------------------------------------------------------
  // Lines that carry data

  /** A line the parser reads: neither empty nor starting with `#`. */
  predicate IsData(l: string) {
    l != [] && l[0] != '#'
  }

  /** The data lines of `ls`, in order. */
  function DataLines(ls: seq<string>): (r: seq<string>)
    ensures forall l :: l in r ==> IsData(l)
  {
    if ls == [] then []
    else (if IsData(ls[0]) then [ls[0]] else []) + DataLines(ls[1..])
  }

  /** Filtering distributes over concatenation. */
  lemma {:induction false} DataLinesAppend(a: seq<string>, b: seq<string>)
    ensures DataLines(a + b) == DataLines(a) + DataLines(b)
  {
    if a == [] {
      assert a + b == b;
    } else {
      var head := if IsData(a[0]) then [a[0]] else [];
      assert (a + b)[0] == a[0];
      assert (a + b)[1..] == a[1..] + b;
      DataLinesAppend(a[1..], b);
      calc {
        DataLines(a + b);
        head + DataLines(a[1..] + b);
        head + (DataLines(a[1..]) + DataLines(b));
        (head + DataLines(a[1..])) + DataLines(b);
        DataLines(a) + DataLines(b);
      }
    }
  }

  /** An empty or `#` line is ignored wherever it stands. */
  lemma CommentLineDropped(a: seq<string>, c: string, b: seq<string>)
    requires !IsData(c)
    ensures DataLines(a + [c] + b) == DataLines(a + b)
  {
    assert DataLines([c]) == [] by { assert [c][1..] == []; }
    calc {
      DataLines(a + [c] + b);
      { DataLinesAppend(a + [c], b); }
      DataLines(a + [c]) + DataLines(b);
      { DataLinesAppend(a, [c]); }
      DataLines(a) + DataLines([c]) + DataLines(b);
      DataLines(a) + DataLines(b);
      { DataLinesAppend(a, b); }
      DataLines(a + b);
    }
  }

  /**
   * A data line is kept wherever it stands, in order: with `CommentLineDropped`
   * this says the filter keeps exactly the data lines. A line that only starts
   * with whitespace before its `#` is data.
   */
  lemma DataLineKept(a: seq<string>, l: string, b: seq<string>)
    requires IsData(l)
    ensures DataLines(a + [l] + b) == DataLines(a) + [l] + DataLines(b)
  {
    assert DataLines([l]) == [l] by { assert [l][1..] == []; }
    calc {
      DataLines(a + [l] + b);
      { DataLinesAppend(a + [l], b); }
      DataLines(a + [l]) + DataLines(b);
      { DataLinesAppend(a, [l]); }
      DataLines(a) + [l] + DataLines(b);
    }
  }

  // ---------------------------------------------------------------------------
  // One transition line

  /** The line `q0 s0 q1 s1 dir` once read. */
  datatype Transition = Transition(from: State, read: Symbol, to: State, write: Symbol, dir: Direction) {
    function Key(): Pair { (from, read) }
    function Value(): Action { (to, write, dir) }
  }

  /** The direction a token spells, if any: exactly `L` or `R`. */
  function DirectionOf(s: string): Option<Direction> {
    if s == "L" then Some(Left) else if s == "R" then Some(Right) else None
  }

  /** `parts.next()` at position `i`. */
  function Nth(parts: seq<string>, i: nat): Option<string> {
    if i < |parts| then Some(parts[i]) else None
  }

  /**
   * One δ line: four tokens and a direction, each taken in turn from the
   * line's tokens, and then nothing more. A line is accepted exactly when it
   * has five tokens and the fifth is `L` or `R`.
   */
  function ParseTransition(line: string): Option<Transition> {
    ReadTransition(Words(line))
  }

  /** The tokens of one δ line, taken in turn as `parts.next()` does. */
  function ReadTransition(parts: seq<string>): (r: Option<Transition>)
    ensures r.Some? <==> |parts| == 5 && (parts[4] == "L" || parts[4] == "R")
    ensures r.Some? ==> r.value.dir == (if parts[4] == "L" then Left else Right)
  {
    var q0, s0, q1, s1 := Nth(parts, 0), Nth(parts, 1), Nth(parts, 2), Nth(parts, 3);
    var m := if Nth(parts, 4).Some? then DirectionOf(parts[4]) else None;
    if q0.None? || s0.None? || q1.None? || s1.None? || m.None? then None
    else if Nth(parts, 5).Some? then None
    else Some(Transition(State(q0.value), Symbol(s0.value), State(q1.value), Symbol(s1.value), m.value))
  }

  /**
   * A δ line is accepted exactly when it has five tokens and the fifth is
   * `L` or `R`; fewer tokens, another fifth token or a sixth token reject it.
   * An accepted line reads as its tokens in order.
   */
  lemma ParseTransitionAccepts(line: string)
    ensures var w := Words(line);
      && (ParseTransition(line).Some? <==> |w| == 5 && (w[4] == "L" || w[4] == "R"))
      && (ParseTransition(line).Some? ==>
            ParseTransition(line).value
            == Transition(State(w[0]), Symbol(w[1]), State(w[2]), Symbol(w[3]),
                          if w[4] == "L" then Left else Right))
  {
  }

  /**
   * δ as the rule lines build it: each line in turn is inserted into a
   * single-valued map; the first line that is not a transition stops the
   * reading.
   */
  function Transitions(rules: seq<string>): (r: Result<Delta, ParseError>)
    ensures r.Failure? ==> r.error == InvalidTransition
    ensures rules == [] ==> r == Success(map[])
    decreases |rules|
  {
    if rules == [] then Success(map[])
    else
      match Transitions(rules[..|rules| - 1])
      case Failure(e) => Failure(e)
      case Success(d) =>
        match ParseTransition(rules[|rules| - 1])
        case None => Failure(InvalidTransition)
        case Some(t) => Success(d[t.Key() := t.Value()])
  }

  /** The rule lines are read as a whole exactly when each of them is a transition. */
  lemma {:induction false} TransitionsFailIff(rules: seq<string>)
    ensures Transitions(rules).Failure? <==>
      exists i :: 0 <= i < |rules| && ParseTransition(rules[i]).None?
    ensures Transitions(rules).Failure? ==> Transitions(rules).error == InvalidTransition
    decreases |rules|
  {
    if rules != [] {
      var init := rules[..|rules| - 1];
      TransitionsFailIff(init);
      if Transitions(init).Failure? {
        var i :| 0 <= i < |init| && ParseTransition(init[i]).None?;
        assert rules[i] == init[i];
      }
      forall i | 0 <= i < |init| ensures rules[i] == init[i] { }
    }
  }

  /** Peels the last rule line off a successful reading. */
  lemma TransitionsLast(rules: seq<string>, d: Delta)
    requires rules != [] && Transitions(rules) == Success(d)
    ensures var n := |rules| - 1;
      && Transitions(rules[..n]).Success?
      && ParseTransition(rules[n]).Some?
      && d == Transitions(rules[..n]).value[ParseTransition(rules[n]).value.Key() := ParseTransition(rules[n]).value.Value()]
  {
  }

  /** The keys of δ are exactly the keys of the rule lines. */
  lemma {:induction false} TransitionsKeys(rules: seq<string>, d: Delta)
    requires Transitions(rules) == Success(d)
    ensures forall i :: 0 <= i < |rules| ==> ParseTransition(rules[i]).Some?
    ensures forall k :: k in d <==>
      exists i :: 0 <= i < |rules| && ParseTransition(rules[i]).value.Key() == k
    decreases |rules|
  {
    if rules != [] {
      var n := |rules| - 1;
      var init := rules[..n];
      TransitionsLast(rules, d);
      var d0 := Transitions(init).value;
      TransitionsKeys(init, d0);
      assert forall i :: 0 <= i < n ==> rules[i] == init[i];
      var t := ParseTransition(rules[n]).value;
      forall k | k in d
        ensures exists i :: 0 <= i < |rules| && ParseTransition(rules[i]).value.Key() == k
      {
        if k != t.Key() {
          var i :| 0 <= i < n && ParseTransition(init[i]).value.Key() == k;
          assert rules[i] == init[i];
        }
      }
    }
  }

  /**
   * Last writer wins: the value δ holds for the key of rule line `i` is the
   * one line `i` writes, unless a later line has the same key.
   */
  lemma {:induction false} LastWriterWins(rules: seq<string>, d: Delta, i: nat)
    requires Transitions(rules) == Success(d) && i < |rules| && ParseTransition(rules[i]).Some?
    requires forall j :: i < j < |rules| ==>
      ParseTransition(rules[j]).Some? && ParseTransition(rules[j]).value.Key() != ParseTransition(rules[i]).value.Key()
    ensures var t := ParseTransition(rules[i]).value; t.Key() in d && d[t.Key()] == t.Value()
    decreases |rules|
  {
    var n := |rules| - 1;
    TransitionsLast(rules, d);
    if i < n {
      var init := rules[..n];
      assert init[i] == rules[i];
      forall j | i < j < |init| ensures ParseTransition(init[j]).Some? && ParseTransition(init[j]).value.Key() != ParseTransition(init[i]).value.Key() {
        assert init[j] == rules[j];
      }
      LastWriterWins(init, Transitions(init).value, i);
    }
  }

  // ---------------------------------------------------------------------------
  // The description as read, before the totality check

  /** The tokens of a header line, as a set of symbols. */
  function SymbolSet(line: string): set<Symbol> {
    set w | w in Words(line) :: Symbol(w)
  }

  /** The tokens of a header line, as a set of states. */
  function StateSet(line: string): set<State> {
    set w | w in Words(line) :: State(w)
  }

  /**
   * Σ, Γ and Q from the first three data lines and δ from the rest, with the
   * checks in the order the parser makes them: Σ read, Γ read, blank in Γ, Q
   * read, start in Q, halt in Q, every rule line well formed.
   */
  function ReadMachine(input: string): (r: Result<MachineDescription, ParseError>)
    ensures r.Success? ==> BLANK in r.value.gamma && START in r.value.q && HALT in r.value.q
    ensures r.Failure? ==> !r.error.IncompleteDelta?
  {
    var lines := DataLines(Lines(input));
    if |lines| < 1 then Failure(UnexpectedEof(SigmaLine))
    else if |lines| < 2 then Failure(UnexpectedEof(GammaLine))
    else if BLANK !in SymbolSet(lines[1]) then Failure(MissingBlank)
    else if |lines| < 3 then Failure(UnexpectedEof(StatesLine))
    else if START !in StateSet(lines[2]) then Failure(MissingStart)
    else if HALT !in StateSet(lines[2]) then Failure(MissingHalt)
    else
      match Transitions(lines[3..])
      case Failure(e) => Failure(e)
      case Success(delta) =>
        Success(MachineDescription(SymbolSet(lines[0]), SymbolSet(lines[1]), StateSet(lines[2]), delta))
  }

  // ---------------------------------------------------------------------------
  // Totality

  /** The pairs of (states of `q` other than halt) × `gamma` that δ has no rule for. */
  function Uncovered(q: set<State>, gamma: set<Symbol>, delta: Delta): (gaps: set<Pair>)
    ensures forall p :: p in gaps ==> p !in delta && p.0 in q && p.0 != HALT && p.1 in gamma
  {
    set s, g | s in q && s != HALT && g in gamma && (s, g) !in delta :: (s, g)
  }

  /** δ has a rule for every non-halting state of `q` and every symbol of `gamma`. */
  predicate Total(q: set<State>, gamma: set<Symbol>, delta: Delta) {
    forall s, g :: s in q && s != HALT && g in gamma ==> (s, g) in delta
  }

  /** Nothing is uncovered exactly when δ is total. */
  lemma UncoveredEmptyIffTotal(q: set<State>, gamma: set<Symbol>, delta: Delta)
    ensures Uncovered(q, gamma, delta) == {} <==> Total(q, gamma, delta)
  {
    if !Total(q, gamma, delta) {
      var s, g :| s in q && s != HALT && g in gamma && (s, g) !in delta;
      assert (s, g) in Uncovered(q, gamma, delta);
    }
  }

  /** `xs` lists the elements of `s`, each exactly once, in some order. */
  predicate Enumerates<T>(xs: seq<T>, s: set<T>) {
    multiset(xs) == multiset(s)
  }

  /**
   * What a call of the parser on `input` may return: the reading's error, or
   * the description when δ is total, or else the uncovered pairs, all of
   * them and each once, in an order the set iteration chooses.
   */
  predicate Outcome(input: string, r: Result<MachineDescription, ParseError>)
    ensures Outcome(input, r) && r.Success? ==> r == ReadMachine(input)
  {
    match ReadMachine(input)
    case Failure(e) => r == Failure(e)
    case Success(m) =>
      var gaps := Uncovered(m.q, m.gamma, m.delta);
      if gaps == {} then r == Success(m)
      else r.Failure? && r.error.IncompleteDelta? && Enumerates(r.error.missing, gaps)
  }

  // ---------------------------------------------------------------------------
  // The parser

  /** Adding one element not yet listed extends an enumeration by that element. */
  lemma EnumeratesAppend<T>(xs: seq<T>, s: set<T>, x: T)
    requires Enumerates(xs, s) && x !in s
    ensures Enumerates(xs + [x], s + {x})
  {
    calc {
      multiset(xs + [x]);
      multiset(xs) + multiset{x};
      multiset(s) + multiset{x};
      { assert s !! {x}; }
      multiset(s + {x});
    }
  }

  /** Listing two disjoint sets one after the other enumerates their union. */
  lemma EnumeratesConcat<T>(xs: seq<T>, s: set<T>, ys: seq<T>, t: set<T>)
    requires Enumerates(xs, s) && Enumerates(ys, t) && s !! t
    ensures Enumerates(xs + ys, s + t)
  {
    calc {
      multiset(xs + ys);
      multiset(xs) + multiset(ys);
      multiset(s) + multiset(t);
      multiset(s + t);
    }
  }

  /** The uncovered pairs of a union of states are the disjoint union of theirs. */
  lemma UncoveredStates(done: set<State>, state: State, gamma: set<Symbol>, delta: Delta)
    ensures Uncovered(done + {state}, gamma, delta)
         == Uncovered(done, gamma, delta) + Uncovered({state}, gamma, delta)
    ensures state !in done ==> Uncovered(done, gamma, delta) !! Uncovered({state}, gamma, delta)
    ensures state == HALT ==> Uncovered({state}, gamma, delta) == {}
  {
  }

  /** The uncovered pairs of one state grow by at most the one pair a new symbol adds. */
  lemma UncoveredSymbols(state: State, seen: set<Symbol>, symbol: Symbol, delta: Delta)
    requires state != HALT
    ensures Uncovered({state}, seen + {symbol}, delta)
         == Uncovered({state}, seen, delta) + (if (state, symbol) in delta then {} else {(state, symbol)})
    ensures symbol !in seen ==> (state, symbol) !in Uncovered({state}, seen, delta)
  {
  }

  /**
   * The pairs of (`q` minus halt) × `gamma` missing from `delta`, found by
   * the parser's two nested loops over the sets in whatever order they are
   * iterated: each uncovered pair exactly once.
   */
  method FindMissing(q: set<State>, gamma: set<Symbol>, delta: Delta) returns (missing: seq<Pair>)
    ensures Enumerates(missing, Uncovered(q, gamma, delta))
  {
    missing := [];
    var states := q;
    ghost var done: set<State> := {};
    while states != {}
      invariant states <= q && done == q - states
      invariant Enumerates(missing, Uncovered(done, gamma, delta))
      decreases states
    {
      var state :| state in states;
      states := states - {state};
      ghost var before := missing;
      if state != HALT {
        missing := FindMissingInRow(state, gamma, delta, missing);
      }
      StateDone(done, state, gamma, delta, before, missing);
      done := done + {state};
    }
  }

  /** One turn of the outer loop of `FindMissing` extends the enumeration by the row of `state`. */
  lemma StateDone(done: set<State>, state: State, gamma: set<Symbol>, delta: Delta, before: seq<Pair>, missing: seq<Pair>)
    requires state !in done && Enumerates(before, Uncovered(done, gamma, delta))
    requires state == HALT ==> missing == before
    requires state != HALT ==> |before| <= |missing| && missing[..|before|] == before
    requires state != HALT ==> Enumerates(missing[|before|..], Uncovered({state}, gamma, delta))
    ensures Enumerates(missing, Uncovered(done + {state}, gamma, delta))
  {
    UncoveredStates(done, state, gamma, delta);
    if state != HALT {
      assert missing == before + missing[|before|..];
      EnumeratesConcat(before, Uncovered(done, gamma, delta), missing[|before|..], Uncovered({state}, gamma, delta));
    }
  }

  /** The inner loop of `FindMissing`: appends the pairs of the symbols `state` has no rule for. */
  method FindMissingInRow(state: State, gamma: set<Symbol>, delta: Delta, missing: seq<Pair>)
    returns (missing': seq<Pair>)
    requires state != HALT
    ensures |missing| <= |missing'| && missing'[..|missing|] == missing
    ensures Enumerates(missing'[|missing|..], Uncovered({state}, gamma, delta))
  {
    missing' := missing;
    var symbols := gamma;
    ghost var seen: set<Symbol> := {};
    while symbols != {}
      invariant symbols <= gamma && seen == gamma - symbols
      invariant |missing| <= |missing'| && missing'[..|missing|] == missing
      invariant Enumerates(missing'[|missing|..], Uncovered({state}, seen, delta))
      decreases symbols
    {
      var symbol :| symbol in symbols;
      symbols := symbols - {symbol};
      UncoveredSymbols(state, seen, symbol, delta);
      if (state, symbol) !in delta {
        ghost var row := missing'[|missing|..];
        missing' := missing' + [(state, symbol)];
        assert missing'[|missing|..] == row + [(state, symbol)];
        EnumeratesAppend(row, Uncovered({state}, seen, delta), (state, symbol));
      }
      seen := seen + {symbol};
    }
  }

  /**
   * `MachineDescription::parse`: skips empty and `#` lines, reads Σ, Γ and Q
   * from the first three remaining lines with their checks, inserts every
   * further line into δ, and finally reports every pair δ leaves uncovered.
   */
  method Parse(input: string) returns (r: Result<MachineDescription, ParseError>)
    ensures Outcome(input, r)
  {
    var lines := DataLines(Lines(input));
    if |lines| < 1 {
      return Failure(UnexpectedEof(SigmaLine));
    }
    var sigma := SymbolSet(lines[0]);
    if |lines| < 2 {
      return Failure(UnexpectedEof(GammaLine));
    }
    var gamma := SymbolSet(lines[1]);
    if BLANK !in gamma {
      return Failure(MissingBlank);
    }
    if |lines| < 3 {
      return Failure(UnexpectedEof(StatesLine));
    }
    var q := StateSet(lines[2]);
    if START !in q {
      return Failure(MissingStart);
    }
    if HALT !in q {
      return Failure(MissingHalt);
    }
    var delta: Delta := map[];
    var i := 3;
    while i < |lines|
      invariant 3 <= i <= |lines|
      invariant Transitions(lines[3..i]) == Success(delta)
    {
      var t := ParseTransition(lines[i]);
      assert lines[3..i + 1][..i - 3] == lines[3..i];
      if t.None? {
        TransitionsFailIff(lines[3..]);
        assert lines[3..][i - 3] == lines[i];
        return Failure(InvalidTransition);
      }
      delta := delta[t.value.Key() := t.value.Value()];
      i := i + 1;
    }
    assert lines[3..i] == lines[3..];
    var missing := FindMissing(q, gamma, delta);
    ghost var gaps := Uncovered(q, gamma, delta);
    if missing != [] {
      assert missing[0] in multiset(gaps);
      return Failure(IncompleteDelta(missing));
    }
    return Success(MachineDescription(sigma, gamma, q, delta));
  }
}

/** What a parse outcome says about the machine text. */
module ParserFacts {
  import opened Wrappers
  import opened Text
  import opened Machine
  import opened Parser

  /** An enumeration lists exactly the elements of the set, none of them twice. */
  lemma EnumeratesExactlyOnce<T>(xs: seq<T>, s: set<T>)
    requires Enumerates(xs, s)
    ensures forall x :: x in xs <==> x in s
    ensures forall i, j :: 0 <= i < j < |xs| ==> xs[i] != xs[j]
  {
    forall x ensures x in xs <==> x in s {
      assert x in xs <==> x in multiset(xs);
    }
    forall i, j | 0 <= i < j < |xs| ensures xs[i] != xs[j] {
      if xs[i] == xs[j] {
        RepeatCountsTwice(xs, i, j);
      }
    }
  }

  lemma RepeatCountsTwice<T>(xs: seq<T>, i: nat, j: nat)
    requires i < j < |xs| && xs[i] == xs[j]
    ensures multiset(xs)[xs[i]] >= 2
  {
    assert xs == xs[..j] + [xs[j]] + xs[j + 1..];
    assert xs[i] in xs[..j];
    assert multiset(xs) == multiset(xs[..j]) + multiset{xs[j]} + multiset(xs[j + 1..]);
  }

  /**
   * A description the parser accepts has a rule for every non-halting state
   * and every tape symbol, and its Γ holds the blank and its Q the start and
   * halt states.
   */
  lemma AcceptedIsTotal(input: string, m: MachineDescription)
    requires Outcome(input, Success(m))
    ensures BLANK in m.gamma && START in m.q && HALT in m.q
    ensures forall s, g :: s in m.q && s != HALT && g in m.gamma ==> (s, g) in m.delta
  {
    UncoveredEmptyIffTotal(m.q, m.gamma, m.delta);
  }

  /**
   * Once the header and the rule lines are read, the parser fails exactly
   * when δ misses some (non-halting state, symbol) pair; it then reports
   * every missing pair, each exactly once, and nothing else.
   */
  lemma IncompleteReportsEveryGap(input: string, m: MachineDescription, r: Result<MachineDescription, ParseError>)
    requires ReadMachine(input) == Success(m) && Outcome(input, r)
    ensures r.Failure? <==> exists s, g :: s in m.q && s != HALT && g in m.gamma && (s, g) !in m.delta
    ensures r.Failure? ==> r.error.IncompleteDelta?
    ensures r.Failure? ==>
      (forall s, g :: (s, g) in r.error.missing <==>
         s in m.q && s != HALT && g in m.gamma && (s, g) !in m.delta)
      && (forall i, j :: 0 <= i < j < |r.error.missing| ==> r.error.missing[i] != r.error.missing[j])
  {
    UncoveredEmptyIffTotal(m.q, m.gamma, m.delta);
    if r.Failure? {
      EnumeratesExactlyOnce(r.error.missing, Uncovered(m.q, m.gamma, m.delta));
    }
  }

  /**
   * The errors of the header lines, in the order the parser checks them:
   * Σ line absent, Γ line absent, blank missing from Γ, Q line absent, start
   * missing from Q, halt missing from Q; then a malformed rule line.
   */
  lemma HeaderErrorsInOrder(input: string, r: Result<MachineDescription, ParseError>)
    requires Outcome(input, r)
    ensures var lines := DataLines(Lines(input));
      && (r == Failure(UnexpectedEof(SigmaLine)) <==> |lines| == 0)
      && (r == Failure(UnexpectedEof(GammaLine)) <==> |lines| == 1)
      && (r == Failure(MissingBlank) <==> |lines| >= 2 && BLANK !in SymbolSet(lines[1]))
      && (r == Failure(UnexpectedEof(StatesLine)) <==> |lines| == 2 && BLANK in SymbolSet(lines[1]))
      && (r == Failure(MissingStart) <==>
            |lines| >= 3 && BLANK in SymbolSet(lines[1]) && START !in StateSet(lines[2]))
      && (r == Failure(MissingHalt) <==>
            |lines| >= 3 && BLANK in SymbolSet(lines[1]) && START in StateSet(lines[2])
            && HALT !in StateSet(lines[2]))
      && (r == Failure(InvalidTransition) <==>
            |lines| >= 3 && BLANK in SymbolSet(lines[1]) && START in StateSet(lines[2])
            && HALT in StateSet(lines[2])
            && exists i :: 3 <= i < |lines| && ParseTransition(lines[i]).None?)
  {
    var lines := DataLines(Lines(input));
    if |lines| >= 3 {
      var rules := lines[3..];
      TransitionsFailIff(rules);
      assert forall i :: 3 <= i < |lines| ==> lines[i] == rules[i - 3];
      if exists i :: 0 <= i < |rules| && ParseTransition(rules[i]).None? {
        var i :| 0 <= i < |rules| && ParseTransition(rules[i]).None?;
        assert lines[i + 3] == rules[i];
      }
    }
  }

  /**
   * Empty lines and lines starting with `#` are ignored wherever they
   * stand: inserting one anywhere does not change what the parser may return.
   */
  lemma CommentsIgnoredAnywhere(a: seq<string>, c: string, b: seq<string>, r: Result<MachineDescription, ParseError>)
    requires forall l :: l in a + [c] + b ==> IsLine(l)
    requires !IsData(c)
    ensures Outcome(Unlines(a + [c] + b), r) <==> Outcome(Unlines(a + b), r)
  {
    LinesUnlines(a + [c] + b);
    forall l | l in a + b ensures IsLine(l) {
      assert l in a + [c] + b;
    }
    LinesUnlines(a + b);
    CommentLineDropped(a, c, b);
  }

  /**
   * A line of whitespace only is not skipped: wherever it stands after a
   * header that passes its checks, it is a rule line with no fields, and the
   * description is rejected as malformed.
   */
  lemma BlankLineIsMalformedRule(input: string, k: nat, r: Result<MachineDescription, ParseError>)
    requires Outcome(input, r)
    requires var lines := DataLines(Lines(input));
      && 3 <= k < |lines| && IsBlank(lines[k])
      && BLANK in SymbolSet(lines[1]) && START in StateSet(lines[2]) && HALT in StateSet(lines[2])
    ensures r == Failure(InvalidTransition)
  {
    var lines := DataLines(Lines(input));
    NoWordsIffBlank(lines[k]);
    ParseTransitionAccepts(lines[k]);
    HeaderErrorsInOrder(input, r);
  }

  /**
   * A description with no rule lines is always rejected, and the report
   * lists every (non-halting state, symbol) pair, the pair of start and
   * blank among them.
   */
  lemma NoRulesAllMissing(input: string, r: Result<MachineDescription, ParseError>)
    requires |DataLines(Lines(input))| == 3 && ReadMachine(input).Success?
    requires Outcome(input, r)
    ensures r.Failure? && r.error.IncompleteDelta?
    ensures (START, BLANK) in r.error.missing
    ensures var m := ReadMachine(input).value;
      forall s, g :: (s, g) in r.error.missing <==> s in m.q && s != HALT && g in m.gamma
  {
    var m := ReadMachine(input).value;
    var lines := DataLines(Lines(input));
    assert lines[3..] == [];
    assert m.delta == map[];
    assert (START, BLANK) in Uncovered(m.q, m.gamma, m.delta);
    IncompleteReportsEveryGap(input, m, r);
  }

  /**
   * On an accepted description, δ holds for each rule line's (state, symbol)
   * the step written on the last line with that pair.
   */
  lemma AcceptedKeepsLastRule(input: string, m: MachineDescription, i: nat)
    requires Outcome(input, Success(m))
    requires var lines := DataLines(Lines(input)); 3 <= i < |lines| && ParseTransition(lines[i]).Some?
    requires var lines := DataLines(Lines(input));
      forall j :: i < j < |lines| ==>
        ParseTransition(lines[j]).Some? && ParseTransition(lines[j]).value.Key() != ParseTransition(lines[i]).value.Key()
    ensures var t := ParseTransition(DataLines(Lines(input))[i]).value;
      t.Key() in m.delta && m.delta[t.Key()] == t.Value()
  {
    var lines := DataLines(Lines(input));
    var rules := lines[3..];
    assert m.delta == Transitions(rules).value;
    assert rules[i - 3] == lines[i];
    forall j | i - 3 < j < |rules|
      ensures ParseTransition(rules[j]).Some? && ParseTransition(rules[j]).value.Key() != ParseTransition(rules[i - 3]).value.Key()
    {
      assert rules[j] == lines[j + 3];
    }
    LastWriterWins(rules, m.delta, i - 3);
  }
}
