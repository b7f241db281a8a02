/**
 * A running machine: the tape as two deques around a head cell, one step
 * of δ, the halting test and the display-then-step loop.
 *
 * `Snapshot` is the value a configuration holds at one moment; the class
 * `Configuration` is the object the simulator updates in place, and its
 * methods are specified by the functions on snapshots.
 */
module Configurations {
  import opened Wrappers
  import opened Text
  import opened Machine

  /**
   * The cells left of the head (nearest last), the head's state and the
   * symbol under it, the cells right of the head (nearest first).
   */
  datatype Snapshot = Snapshot(prefix: seq<Symbol>, head: Pair, suffix: seq<Symbol>)

  /** The tape as far as it has been visited, left to right. */
  function Cells(c: Snapshot): seq<Symbol> {
    c.prefix + [c.head.1] + c.suffix
  }

  /** The head's position within `Cells`. */
  function Position(c: Snapshot): nat {
    |c.prefix|
  }

  /** The machine has halted when the head is in the halting state. */
  predicate Halted(c: Snapshot) {
    c.head.0 == HALT
  }

  // ---------------------------------------------------------------------------
  // Building and stepping

  /** The initial configuration: state start, head on the first input token, blank if there is none. */
  function Initial(input: string): (c: Snapshot)
    ensures c.prefix == [] && c.head.0 == START
    ensures |Cells(c)| == if Words(input) == [] then 1 else |Words(input)|
  {
    var tape := Symbols(Words(input));
    Snapshot([], (START, if tape == [] then BLANK else tape[0]), if tape == [] then [] else tape[1..])
  }

  /**
   * The initial tape holds the input tokens from the head rightwards, or a
   * single blank when the input has no tokens, and the machine starts there
   * in the start state.
   */
  lemma InitialTape(input: string)
    ensures var c := Initial(input);
      && Position(c) == 0
      && c.head.0 == START
      && Cells(c) == if Words(input) == [] then [BLANK] else Symbols(Words(input))
  {
    var tape := Symbols(Words(input));
    if tape != [] {
      assert tape == [tape[0]] + tape[1..];
    }
  }

  /** Pops the back of a deque, with the blank when it is empty (`pop_back().unwrap_or(BLANK)`). */
  function PopBack(d: seq<Symbol>): (Symbol, seq<Symbol>) {
    if d == [] then (BLANK, []) else (d[|d| - 1], d[..|d| - 1])
  }

  /** Pops the front of a deque, with the blank when it is empty (`pop_front().unwrap_or(BLANK)`). */
  function PopFront(d: seq<Symbol>): (Symbol, seq<Symbol>) {
    if d == [] then (BLANK, []) else (d[0], d[1..])
  }

  /**
   * One step of δ: the head takes δ's state and symbol; a move left pushes
   * that symbol onto the front of the suffix and pops the prefix's back into
   * the head, a move right pushes it onto the back of the prefix and pops
   * the suffix's front into the head.
   */
  function Next(delta: Delta, c: Snapshot): (d: Snapshot)
    requires c.head in delta
    ensures d.head.0 == delta[c.head].0
    ensures |Cells(d)| == |Cells(c)| || |Cells(d)| == |Cells(c)| + 1
  {
    var (state, symbol, dir) := delta[c.head];
    match dir
    case Left =>
      var (under, prefix) := PopBack(c.prefix);
      Snapshot(prefix, (state, under), [symbol] + c.suffix)
    case Right =>
      var (under, suffix) := PopFront(c.suffix);
      Snapshot(c.prefix + [symbol], (state, under), suffix)
  }

  /**
   * The deques after one step: the head's state is δ's; on a move right the
   * written symbol is the prefix's new back and the suffix loses its front
   * into the head (blank if it had none); a move left is the mirror image.
   */
  lemma StepOnDeques(delta: Delta, c: Snapshot)
    requires c.head in delta
    ensures var (state, symbol, dir) := delta[c.head]; var d := Next(delta, c);
      && d.head.0 == state
      && (dir == Right ==>
            && d.prefix == c.prefix + [symbol]
            && d.head.1 == (if c.suffix == [] then BLANK else c.suffix[0])
            && d.suffix == (if c.suffix == [] then [] else c.suffix[1..]))
      && (dir == Left ==>
            && d.suffix == [symbol] + c.suffix
            && d.head.1 == (if c.prefix == [] then BLANK else c.prefix[|c.prefix| - 1])
            && d.prefix == (if c.prefix == [] then [] else c.prefix[..|c.prefix| - 1]))
  {
  }

  /**
   * One step on the tape as a whole: δ's symbol overwrites the cell under
   * the head and the head moves one cell in δ's direction; a blank cell is
   * added exactly when the head moves off the visited part of the tape.
   */
  lemma StepWritesAndMoves(delta: Delta, c: Snapshot)
    requires c.head in delta
    ensures var (state, symbol, dir) := delta[c.head]; var d := Next(delta, c);
      var written := Cells(c)[Position(c) := symbol];
      && (dir == Right ==>
            && Cells(d) == written + (if c.suffix == [] then [BLANK] else [])
            && Position(d) == Position(c) + 1)
      && (dir == Left ==>
            && Cells(d) == (if c.prefix == [] then [BLANK] else []) + written
            && Position(d) == (if c.prefix == [] then 0 else Position(c) - 1))
  {
    var (state, symbol, dir) := delta[c.head];
    var d := Next(delta, c);
    var written := Cells(c)[Position(c) := symbol];
    assert written == c.prefix + [symbol] + c.suffix;
    if dir == Right {
      if c.suffix != [] {
        assert c.suffix == [c.suffix[0]] + c.suffix[1..];
      }
    } else {
      if c.prefix != [] {
        assert c.prefix == c.prefix[..|c.prefix| - 1] + [c.prefix[|c.prefix| - 1]];
      }
    }
  }

  /**
   * The visited tape grows by exactly one cell when the side the head pops
   * from was empty, and keeps its length otherwise.
   */
  lemma StepTapeLength(delta: Delta, c: Snapshot)
    requires c.head in delta
    ensures var dir := delta[c.head].2; var popped := if dir == Left then c.prefix else c.suffix;
      |Cells(Next(delta, c))| == |Cells(c)| + (if popped == [] then 1 else 0)
  {
    StepWritesAndMoves(delta, c);
  }

  // ---------------------------------------------------------------------------
  // The halting loop, bounded by fuel

  /** δ is defined at every head the next `fuel` steps reach before halting. */
  predicate CanRun(delta: Delta, c: Snapshot, fuel: nat)
    decreases fuel
  {
    Halted(c) || fuel == 0 || (c.head in delta && CanRun(delta, Next(delta, c), fuel - 1))
  }

  /**
   * The configurations the simulator displays: the first one, then one after
   * each step, until the machine halts or `fuel` steps have been taken.
   */
  function Trace(delta: Delta, c: Snapshot, fuel: nat): (t: seq<Snapshot>)
    requires CanRun(delta, c, fuel)
    ensures 1 <= |t| <= fuel + 1 && t[0] == c
    decreases fuel
  {
    if Halted(c) || fuel == 0 then [c] else [c] + Trace(delta, Next(delta, c), fuel - 1)
  }

  /**
   * A trace starts with the given configuration, each later entry is one
   * step from the one before it, no entry but the last has halted, and it
   * stops at the first halted configuration or when the fuel runs out.
   */
  lemma {:induction false} TraceSteps(delta: Delta, c: Snapshot, fuel: nat)
    requires CanRun(delta, c, fuel)
    ensures var t := Trace(delta, c, fuel);
      && 1 <= |t| <= fuel + 1
      && t[0] == c
      && (forall i :: 0 <= i < |t| - 1 ==>
            !Halted(t[i]) && t[i].head in delta && t[i + 1] == Next(delta, t[i]))
      && (Halted(t[|t| - 1]) || |t| == fuel + 1)
    decreases fuel
  {
    if !Halted(c) && fuel > 0 {
      var rest := Trace(delta, Next(delta, c), fuel - 1);
      TraceSteps(delta, Next(delta, c), fuel - 1);
      var t := [c] + rest;
      forall i | 1 <= i < |t| - 1
        ensures !Halted(t[i]) && t[i].head in delta && t[i + 1] == Next(delta, t[i])
      {
        assert t[i] == rest[i - 1] && t[i + 1] == rest[i];
      }
    }
  }

  /** More fuel only lengthens a trace: the shorter run is a prefix of the longer one. */
  lemma {:induction false} TraceExtends(delta: Delta, c: Snapshot, fuel: nat, more: nat)
    requires fuel <= more && CanRun(delta, c, more)
    ensures CanRun(delta, c, fuel)
    ensures |Trace(delta, c, fuel)| <= |Trace(delta, c, more)|
    ensures var t := Trace(delta, c, fuel); t == Trace(delta, c, more)[..|t|]
    decreases fuel
  {
    if !Halted(c) && fuel > 0 {
      TraceExtends(delta, Next(delta, c), fuel - 1, more - 1);
    } else if !Halted(c) {
      TraceSteps(delta, c, more);
    }
  }

  // ---------------------------------------------------------------------------
  // When the run cannot get stuck

  /** Every value δ holds names a state of Q and a symbol of Γ. */
  predicate TargetsInAlphabet(m: MachineDescription) {
    forall k :: k in m.delta ==> m.delta[k].0 in m.q && m.delta[k].1 in m.gamma
  }

  /** The head's state is in Q and every visited cell holds a symbol of Γ. */
  predicate OnAlphabet(m: MachineDescription, c: Snapshot) {
    c.head.0 in m.q && forall s :: s in Cells(c) ==> s in m.gamma
  }

  /** A step whose δ value lies in Q × Γ leaves the configuration within Q and Γ. */
  lemma StepStaysOnAlphabet(m: MachineDescription, c: Snapshot)
    requires BLANK in m.gamma && TargetsInAlphabet(m) && OnAlphabet(m, c) && c.head in m.delta
    ensures OnAlphabet(m, Next(m.delta, c))
  {
    StepWritesAndMoves(m.delta, c);
    var symbol := m.delta[c.head].1;
    forall s | s in Cells(c)[Position(c) := symbol] ensures s in m.gamma {
      var i :| 0 <= i < |Cells(c)| && Cells(c)[Position(c) := symbol][i] == s;
      if i != Position(c) {
        assert Cells(c)[i] in Cells(c);
      }
    }
  }

  /**
   * On a total δ whose values stay in Q × Γ, a configuration within Q and Γ
   * never reaches a head δ lacks: every number of steps can be run.
   */
  lemma {:induction false} TotalMachineRuns(m: MachineDescription, c: Snapshot, fuel: nat)
    requires BLANK in m.gamma && TargetsInAlphabet(m) && OnAlphabet(m, c)
    requires forall s, g :: s in m.q && s != HALT && g in m.gamma ==> (s, g) in m.delta
    ensures CanRun(m.delta, c, fuel)
    decreases fuel
  {
    if !Halted(c) && fuel > 0 {
      assert c.head.1 in Cells(c);
      assert c.head in m.delta;
      StepStaysOnAlphabet(m, c);
      TotalMachineRuns(m, Next(m.delta, c), fuel - 1);
    }
  }

  /** An input whose tokens are all in Γ starts within Q and Γ. */
  lemma InitialOnAlphabet(m: MachineDescription, input: string)
    requires BLANK in m.gamma && START in m.q
    requires forall w :: w in Words(input) ==> Symbol(w) in m.gamma
    ensures OnAlphabet(m, Initial(input))
  {
    InitialTape(input);
    var tape := Symbols(Words(input));
    forall s | s in tape ensures s in m.gamma {
      var i :| 0 <= i < |tape| && tape[i] == s;
      assert Words(input)[i] in Words(input);
    }
  }

  // ---------------------------------------------------------------------------
  // The object the simulator mutates

  class Configuration {
    /** The machine this configuration runs; it never changes. */
    const machine: MachineDescription
    var prefix: seq<Symbol>
    var head: Pair
    var suffix: seq<Symbol>

    /** The configuration's current value. */
    function View(): Snapshot
      reads this
    {
      Snapshot(prefix, head, suffix)
    }

    /** `MachineDescription::instantiate`. */
    constructor Instantiate(machine: MachineDescription, input: string)
      ensures this.machine == machine && View() == Initial(input)
    {
      var tape := Symbols(Words(input));
      var (cur, rest) := PopFront(tape);
      this.machine := machine;
      prefix := [];
      head := (START, cur);
      suffix := rest;
    }

    /** `Configuration::halted`: the current configuration has halted. */
    predicate IsHalted()
      reads this
      ensures IsHalted() <==> Halted(View())
    {
      head.0 == HALT
    }

    /** `Configuration::step`; δ must hold the head (the simulator panics otherwise). */
    method Step()
      requires head in machine.delta
      modifies this
      ensures View() == Next(machine.delta, old(View()))
    {
      var (newState, newSymbol, dir) := machine.delta[head];
      head := (newState, newSymbol);
      match dir {
        case Left =>
          suffix := [head.1] + suffix;
          var (under, rest) := PopBack(prefix);
          prefix := rest;
          head := (head.0, under);
        case Right =>
          prefix := prefix + [head.1];
          var (under, rest) := PopFront(suffix);
          suffix := rest;
          head := (head.0, under);
      }
    }

    /**
     * The loop of `main`: display, then step and display until halted. The
     * displays are the returned trace; at most `fuel` steps are taken.
     */
    method Run(fuel: nat) returns (trace: seq<Snapshot>)
      requires CanRun(machine.delta, View(), fuel)
      modifies this
      ensures trace == Trace(machine.delta, old(View()), fuel)
      ensures View() == trace[|trace| - 1]
    {
      trace := [View()];
      ghost var past: seq<Snapshot> := [];
      var n: nat := fuel;
      while !IsHalted() && n > 0
        invariant n <= fuel && CanRun(machine.delta, View(), n)
        invariant trace == past + [View()]
        invariant Trace(machine.delta, old(View()), fuel) == past + Trace(machine.delta, View(), n)
        decreases n
      {
        ghost var here := View();
        assert Trace(machine.delta, here, n) == [here] + Trace(machine.delta, Next(machine.delta, here), n - 1);
        past := trace;
        Step();
        trace := trace + [View()];
        n := n - 1;
      }
    }
  }
}
