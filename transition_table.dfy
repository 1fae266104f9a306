/** The transition table shared by both engines: for every registered state a
    row mapping signals to the action to run and the state to go to. */
module TransitionTable {
  import opened Wrappers

  /** An action is an opaque, argument-less callback; the engine only ever
      invokes it, so the model keeps nothing but its identity. */
  type ActionId = nat

  /** The (Action, Target) pair stored under a (Source, Signal) key. */
  datatype Transition<S> = Transition(action: ActionId, target: S)

  /** Row per source state, entry per signal. */
  type Table<S, G> = map<S, map<G, Transition<S>>>

  /** The exceptions `AddTransition` can throw: the explicit "Unknown signal!",
      the dictionary's missing-key error for an unregistered source, and the
      dictionary's duplicate-key error for an occupied (Source, Signal). */
  datatype RegistrationError = UnknownSignal | UnknownSource | DuplicateTransition

  function Lookup<S, G>(table: Table<S, G>, source: S, signal: G): Option<Transition<S>>
  {
    if source in table && signal in table[source] then Some(table[source][signal]) else None
  }

  /** The elements of a sequence, as a set. */
  ghost function Elements<T>(s: seq<T>): set<T>
  {
    set x | x in s
  }

  /** An empty row for each of `states`. */
  ghost function EmptyRows<S, G>(states: set<S>): Table<S, G>
  {
    map s | s in states :: map[]
  }

  /** Every stored entry is keyed by a declared signal. */
  ghost predicate SignalsDeclared<S, G>(table: Table<S, G>, signals: set<G>)
  {
    forall s, g | s in table && g in table[s] :: g in signals
  }

  /** Registration of one transition: the signal must be declared, the source
      must have a row, and the (Source, Signal) key must be free. */
  function Register<S, G>(table: Table<S, G>, signals: set<G>, source: S, signal: G, t: Transition<S>)
    : (r: Result<Table<S, G>, RegistrationError>)
    ensures r == Failure(UnknownSignal) <==> signal !in signals
    ensures r == Failure(UnknownSource) <==> signal in signals && source !in table
    ensures r == Failure(DuplicateTransition) <==> signal in signals && Lookup(table, source, signal).Some?
    ensures r.Success? ==> r.value.Keys == table.Keys && Lookup(r.value, source, signal) == Some(t)
    ensures r.Success? && SignalsDeclared(table, signals) ==> SignalsDeclared(r.value, signals)
  {
    if signal !in signals then Failure(UnknownSignal)
    else if source !in table then Failure(UnknownSource)
    else if signal in table[source] then Failure(DuplicateTransition)
    else Success(table[source := table[source][signal := t]])
  }

  /** A successful registration adds exactly its own entry: every other
      (Source, Signal) key looks up what it did before. */
  lemma RegisterFrame<S, G>(table: Table<S, G>, signals: set<G>, source: S, signal: G, t: Transition<S>)
    requires Register(table, signals, source, signal, t).Success?
    ensures forall s, g | s != source || g != signal ::
      Lookup(Register(table, signals, source, signal, t).value, s, g) == Lookup(table, s, g)
  {
  }

  /** A second registration under the same key fails, whatever it carries,
      and the entry of the first one is the one the table holds. */
  lemma RegisterTwice<S, G>(table: Table<S, G>, signals: set<G>, source: S, signal: G, first: Transition<S>, second: Transition<S>)
    requires Register(table, signals, source, signal, first).Success?
    ensures var t1 := Register(table, signals, source, signal, first).value;
      Register(t1, signals, source, signal, second) == Failure(DuplicateTransition) &&
      Lookup(t1, source, signal) == Some(first)
  {
  }
}
