/** The earlier engine `Machine<TStates, TSignal>`: one error state given to
    the constructor, states and signals registered one call at a time, and an
    unchecked `SetState`. */
module Machines {
  import opened Wrappers
  import opened TransitionTable
  import opened SignalDispatch

  /** The dictionary's duplicate-key error when a state is registered twice. */
  datatype StateError = StateAlreadyAdded

  class Machine<S(==), G(==)> {
    const Name: string
    const ErrorState: S
    var Transitions: Table<S, G>
    var Signals: set<G>
    /** `None` stands for a null current state. */
    var CurrentState: Option<S>
    /** The actions invoked so far, in order. */
    ghost var Trace: seq<ActionId>

    /** The error state keeps its row, and the table holds declared signals only. */
    ghost predicate Valid()
      reads this
    {
      ErrorState in Transitions && SignalsDeclared(Transitions, Signals)
    }

    /** `defaultState` is the value the current state starts from, the
        default of the state type: `None` (null) for a reference type,
        `Some(d)` for a value type such as an enum. */
    constructor (name: string, errorState: S, defaultState: Option<S>)
      ensures Valid() && Name == name && ErrorState == errorState
      ensures Transitions == map[errorState := map[]] && Signals == {}
      ensures CurrentState == defaultState && Trace == []
    {
      Name := name;
      ErrorState := errorState;
      Transitions := map[errorState := map[]];
      Signals := {};
      CurrentState := defaultState;
      Trace := [];
    }

    /** The private `AddState_`: an empty row for a state not yet registered. */
    method AddRow(state: S) returns (r: Outcome<StateError>)
      requires Valid()
      modifies this`Transitions
      ensures Valid()
      ensures r == Pass <==> old(state !in Transitions)
      ensures Transitions == if r == Pass then old(Transitions)[state := map[]] else old(Transitions)
    {
      if state in Transitions {
        return Fail(StateAlreadyAdded);
      }
      Transitions := Transitions[state := map[]];
      r := Pass;
    }

    /** Registers a state; the first one registered while the current state
        is still null becomes current. */
    method AddState(id: S) returns (r: Outcome<StateError>)
      requires Valid()
      modifies this`Transitions, this`CurrentState
      ensures Valid()
      ensures r == Pass <==> old(id !in Transitions)
      ensures Transitions == if r == Pass then old(Transitions)[id := map[]] else old(Transitions)
      ensures CurrentState == if r == Pass && old(CurrentState) == None then Some(id) else old(CurrentState)
    {
      r := AddRow(id);
      if r.Fail? {
        return;
      }
      if CurrentState == None {
        CurrentState := Some(id);
      }
    }

    /** Overwrites the current state without any check. */
    method SetState(state: S)
      modifies this`CurrentState
      ensures CurrentState == Some(state)
    {
      CurrentState := Some(state);
    }

    /** Declares a signal; declaring it again changes nothing. */
    method AddSignal(signal: G)
      requires Valid()
      modifies this`Signals
      ensures Valid()
      ensures Signals == old(Signals) + {signal}
    {
      Signals := Signals + {signal};
    }

    /** Registers Source + Signal -> (Action, Target). */
    method AddTransition(source: S, signal: G, action: ActionId, target: S) returns (r: Outcome<RegistrationError>)
      requires Valid()
      modifies this`Transitions
      ensures Valid()
      ensures match Register(old(Transitions), Signals, source, signal, Transition(action, target))
        case Success(table) => r == Pass && Transitions == table
        case Failure(e) => r == Fail(e) && Transitions == old(Transitions)
    {
      if signal !in Signals {
        return Fail(UnknownSignal);
      }
      if source !in Transitions {
        return Fail(UnknownSource);
      }
      var row := Transitions[source];
      if signal in row {
        return Fail(DuplicateTransition);
      }
      Transitions := Transitions[source := row[signal := Transition(action, target)]];
      r := Pass;
    }

    /** Processes one signal; the actions in `failing` throw when invoked. The
        error state absorbs the signal; a defined transition runs its action
        and only then commits the target; an undefined one leads to the error
        state. A null current state throws before anything else. */
    method ProcessSignal(signal: G, failing: set<ActionId>) returns (r: Outcome<DispatchError>)
      requires Valid()
      modifies this`CurrentState, this`Trace
      ensures Valid()
      ensures match old(CurrentState)
        case None => r == Fail(NoCurrentState) && CurrentState == None && Trace == old(Trace)
        case Some(current) =>
          var st := Dispatch(Transitions, {ErrorState}, ErrorState, current, signal, failing);
          CurrentState == Some(st.state) && Trace == old(Trace) + st.invoked && r == st.outcome
    {
      if CurrentState == None {
        return Fail(NoCurrentState);
      }
      var current := CurrentState.value;
      if current == ErrorState {
        return Pass;
      }
      if current !in Transitions {
        return Fail(UnknownState);
      }
      var row := Transitions[current];
      if signal in row {
        var t := row[signal];
        Trace := Trace + [t.action];
        if t.action in failing {
          return Fail(ActionFailed);
        }
        CurrentState := Some(t.target);
      } else {
        CurrentState := Some(ErrorState);
      }
      r := Pass;
    }
  }
}
