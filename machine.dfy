/**
 * The vocabulary of a deterministic Turing machine: states, tape symbols,
 * head moves, the reserved constants, the parsed description and the
 * ways reading a description can fail.
 */
module Machine {
  import opened Text

  /** An element of Q: a token of the description text. */
  datatype State = State(name: string)

  /** An element of Γ: a token of the description or input text. */
  datatype Symbol = Symbol(name: string)

  /** The head moves one cell per step; there is no "stay" move. */
  datatype Direction = Left | Right

  /** The starting state of every machine. */
  const START: State := State("S")

  /** The halting state of every machine. */
  const HALT: State := State("H")

  /** The symbol of a blank tape cell. */
  const BLANK: Symbol := Symbol("_")

  /** A (state, symbol) pair: the head of a configuration and a key of δ. */
  type Pair = (State, Symbol)

  /** What δ says to do: the next state, the symbol to write, the move. */
  type Action = (State, Symbol, Direction)

  /** The transition function δ: single-valued, not necessarily total. */
  type Delta = map<Pair, Action>

  /** Σ, Γ, Q and δ of one machine. Σ is read and stored but never consulted. */
  datatype MachineDescription = MachineDescription(
    sigma: set<Symbol>,
    gamma: set<Symbol>,
    q: set<State>,
    delta: Delta)

  /** The header line an unexpected end of text left unread. */
  datatype Header = SigmaLine | GammaLine | StatesLine

  /** Why a machine description is rejected. */
  datatype ParseError =
    | UnexpectedEof(header: Header)
    | MissingBlank
    | MissingStart
    | MissingHalt
    | InvalidTransition
      /** The (state, symbol) pairs δ leaves undefined, in the order they were found. */
    | IncompleteDelta(missing: seq<Pair>)

  /** The tokens of a text, read as symbols. */
  function Symbols(ws: seq<string>): (r: seq<Symbol>)
    ensures |r| == |ws| && forall i :: 0 <= i < |ws| ==> r[i] == Symbol(ws[i])
  {
    if ws == [] then [] else [Symbol(ws[0])] + Symbols(ws[1..])
  }
}
