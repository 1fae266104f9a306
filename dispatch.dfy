/** Signal dispatch, shared by both engines: absorbing error states, the
    action invoked before the target state is committed, and the fallback
    state for a signal the current row does not handle. */
module SignalDispatch {
  import opened Wrappers
  import opened TransitionTable

  /** What `ProcessSignal` can throw: the dictionary's missing-key error when
      the current state has no row, the exception of a failing action, and
      (in `Machine` only) the null dereference of an unset current state. */
  datatype DispatchError = UnknownState | ActionFailed | NoCurrentState

  /** The effect of processing signals: the state afterwards, the actions
      invoked in order, and how the call ended. */
  datatype Step<S> = Step(state: S, invoked: seq<ActionId>, outcome: Outcome<DispatchError>)

  /** One `ProcessSignal` call from `current`. States in `absorbing` ignore
      every signal; `fallback` is where an unhandled signal leads; the actions
      in `failing` throw when invoked. */
  function Dispatch<S, G>(table: Table<S, G>, absorbing: set<S>, fallback: S, current: S, signal: G,
                          failing: set<ActionId>): Step<S>
  {
    if current in absorbing then Step(current, [], Pass)
    else if current !in table then Step(current, [], Fail(UnknownState))
    else if signal in table[current] then
      var t := table[current][signal];
      if t.action in failing then Step(current, [t.action], Fail(ActionFailed))
      else Step(t.target, [t.action], Pass)
    else Step(fallback, [], Pass)
  }

  /** An absorbing state ignores the signal and invokes nothing. */
  lemma DispatchAbsorbing<S, G>(table: Table<S, G>, absorbing: set<S>, fallback: S, current: S, signal: G,
                                failing: set<ActionId>)
    requires current in absorbing
    ensures Dispatch(table, absorbing, fallback, current, signal, failing) == Step(current, [], Pass)
  {
  }

  /** From a non-absorbing state with a matching entry, the entry's action is
      invoked exactly once, and the target is committed only if the action
      returns normally; otherwise the state stays where it was. */
  lemma DispatchDefined<S, G>(table: Table<S, G>, absorbing: set<S>, fallback: S, current: S, signal: G,
                              failing: set<ActionId>)
    requires current !in absorbing && Lookup(table, current, signal).Some?
    ensures var t := Lookup(table, current, signal).value;
      var st := Dispatch(table, absorbing, fallback, current, signal, failing);
      st.invoked == [t.action] &&
      (t.action !in failing ==> st.state == t.target && st.outcome == Pass) &&
      (t.action in failing ==> st.state == current && st.outcome == Fail(ActionFailed))
  {
  }

  /** From a non-absorbing state whose row has no entry for the signal, the
      machine silently moves to the fallback state and invokes nothing. */
  lemma DispatchUndefined<S, G>(table: Table<S, G>, absorbing: set<S>, fallback: S, current: S, signal: G,
                                failing: set<ActionId>)
    requires current !in absorbing && current in table && Lookup(table, current, signal).None?
    ensures Dispatch(table, absorbing, fallback, current, signal, failing) == Step(fallback, [], Pass)
  {
  }

  /** From a non-absorbing state without a row the lookup throws; nothing
      changes and nothing is invoked. */
  lemma DispatchUnregistered<S, G>(table: Table<S, G>, absorbing: set<S>, fallback: S, current: S, signal: G,
                                   failing: set<ActionId>)
    requires current !in absorbing && current !in table
    ensures Dispatch(table, absorbing, fallback, current, signal, failing) == Step(current, [], Fail(UnknownState))
  {
  }

  /** A sequence of `ProcessSignal` calls; the first exception propagates to
      the caller, so the signals after it are never processed. */
  function Run<S, G>(table: Table<S, G>, absorbing: set<S>, fallback: S, current: S, signals: seq<G>,
                     failing: set<ActionId>): Step<S>
    decreases |signals|
  {
    if signals == [] then Step(current, [], Pass)
    else
      var first := Dispatch(table, absorbing, fallback, current, signals[0], failing);
      if first.outcome.Fail? then first
      else
        var rest := Run(table, absorbing, fallback, first.state, signals[1..], failing);
        Step(rest.state, first.invoked + rest.invoked, rest.outcome)
  }

  /** Once in an absorbing state, any number of signals leaves the machine
      there and invokes no action. */
  lemma {:induction false} RunAbsorbing<S, G>(table: Table<S, G>, absorbing: set<S>, fallback: S, current: S,
                                              signals: seq<G>, failing: set<ActionId>)
    requires current in absorbing
    ensures Run(table, absorbing, fallback, current, signals, failing) == Step(current, [], Pass)
    decreases |signals|
  {
    if signals != [] {
      RunAbsorbing(table, absorbing, fallback, current, signals[1..], failing);
    }
  }

  /** Every target and the fallback have rows. */
  ghost predicate Closed<S, G>(table: Table<S, G>, fallback: S)
  {
    fallback in table &&
    forall s, g | s in table && g in table[s] :: table[s][g].target in table
  }

  /** In a closed table, a run that starts in a registered state stays among
      the registered states, never hits the missing-row error, and invokes at
      most one action per signal. */
  lemma {:induction false} RunStaysRegistered<S, G>(table: Table<S, G>, absorbing: set<S>, fallback: S,
                                                    current: S, signals: seq<G>, failing: set<ActionId>)
    requires Closed(table, fallback) && current in table
    ensures var r := Run(table, absorbing, fallback, current, signals, failing);
      r.state in table && r.outcome != Fail(UnknownState) && |r.invoked| <= |signals|
    decreases |signals|
  {
    if signals != [] {
      var first := Dispatch(table, absorbing, fallback, current, signals[0], failing);
      if first.outcome.Pass? {
        RunStaysRegistered(table, absorbing, fallback, first.state, signals[1..], failing);
      }
    }
  }

  /** Processing `a + b` is processing `a`, then, if no exception escaped,
      processing `b` from where `a` left the machine. */
  lemma {:induction false} RunAppend<S, G>(table: Table<S, G>, absorbing: set<S>, fallback: S, current: S,
                                           a: seq<G>, b: seq<G>, failing: set<ActionId>)
    ensures var ra := Run(table, absorbing, fallback, current, a, failing);
      var rb := Run(table, absorbing, fallback, ra.state, b, failing);
      Run(table, absorbing, fallback, current, a + b, failing) ==
        if ra.outcome.Fail? then ra else Step(rb.state, ra.invoked + rb.invoked, rb.outcome)
    decreases |a|
  {
    if a == [] {
      assert a + b == b;
    } else {
      assert (a + b)[0] == a[0];
      assert (a + b)[1..] == a[1..] + b;
      var first := Dispatch(table, absorbing, fallback, current, a[0], failing);
      if first.outcome.Pass? {
        RunAppend(table, absorbing, fallback, first.state, a[1..], b, failing);
      }
    }
  }
}
