/** The enum-driven engine `FiniteStateMachine<TState, TSignal>`: the state
    domain arrives as a list of declarations with their role tags (in place of
    the attributes read by reflection), the signal domain as a list of values,
    and the type's default value as `zero`. */
module FiniteStateMachines {
  import opened Wrappers
  import opened TransitionTable
  import opened SignalDispatch
  import opened Classification

  class FiniteStateMachine<S(==), G(==)> {
    const Name: string
    var Signals: set<G>
    var Transitions: Table<S, G>
    var StartState: S
    var StartStateSet: bool
    var CurrentState: S
    var AcceptingStates: set<S>
    var ErrorStates: set<S>
    var FatalErrorState: S
    var FatalErrorStateSet: bool
    /** The actions invoked so far, in order. */
    ghost var Trace: seq<ActionId>

    /** The fields the constructor's loop fills in. */
    ghost function Classified(): Roles<S>
      reads this
    {
      Roles(Transitions.Keys, StartState, StartStateSet, AcceptingStates, ErrorStates,
            FatalErrorState, FatalErrorStateSet)
    }

    /** What every constructed machine keeps: roles of registered states only,
        no state both accepting and an error state, the fatal error state
        among the error states, and only declared signals in the table. */
    ghost predicate Valid()
      reads this
    {
      AcceptingStates !! ErrorStates &&
      AcceptingStates <= Transitions.Keys && ErrorStates <= Transitions.Keys &&
      (StartStateSet ==> StartState in Transitions) &&
      (FatalErrorStateSet ==> FatalErrorState in ErrorStates) &&
      SignalsDeclared(Transitions, Signals)
    }

    /** The field initialisation before the classification loop. */
    constructor Empty(name: string, zero: S)
      ensures Name == name && Classified() == Initial(zero)
      ensures Signals == {} && CurrentState == zero && Trace == []
    {
      Name := name;
      Transitions := map[];
      Signals := {};
      AcceptingStates := {};
      ErrorStates := {};
      StartStateSet := false;
      FatalErrorStateSet := false;
      StartState := zero;
      FatalErrorState := zero;
      CurrentState := zero;
      Trace := [];
    }

    /** The constructor's loop over the state domain: give each state an empty
        row and sort it into its roles, throwing on the first defect. */
    method ClassifyStates(decls: seq<StateDecl<S>>) returns (r: Outcome<ConfigError>)
      requires Classified() == Initial(StartState)
      modifies this
      ensures Signals == old(Signals) && Trace == old(Trace) && CurrentState == old(CurrentState)
      ensures r.Pass? <==> Classify(decls, old(StartState)).Success?
      ensures r.Fail? ==> Classify(decls, old(StartState)) == Failure(r.error)
      ensures r.Pass? ==> Classify(decls, old(StartState)) == Success(Classified())
      ensures r.Pass? ==> forall s | s in Transitions :: Transitions[s] == map[]
    {
      ghost var zero := StartState;
      var i := 0;
      while i < |decls|
        invariant 0 <= i <= |decls|
        invariant Classify(decls[..i], zero) == Success(Classified())
        invariant forall s | s in Transitions :: Transitions[s] == map[]
        invariant Signals == old(Signals) && Trace == old(Trace) && CurrentState == old(CurrentState)
      {
        assert decls[..i + 1][..i] == decls[..i];
        r := ClassifyOne(decls[i]);
        if r.Fail? {
          ClassifyPrefixFailure(decls, zero, i + 1);
          return;
        }
        i := i + 1;
      }
      assert decls[..i] == decls;
      r := Pass;
    }

    /** One iteration of that loop. */
    method ClassifyOne(d: StateDecl<S>) returns (r: Outcome<ConfigError>)
      modifies this
      ensures Signals == old(Signals) && Trace == old(Trace) && CurrentState == old(CurrentState)
      ensures match ClassifyState(old(Classified()), d)
        case Success(c) => r == Pass && Classified() == c && Transitions == old(Transitions)[d.state := map[]]
        case Failure(e) => r == Fail(e)
    {
      ghost var before := Classified();
      var state := d.state;
      var tags := d.tags;
      // the private AddState: a second row for the same value throws
      if state in Transitions {
        r := Fail(DuplicateState);
        return;
      }
      Transitions := Transitions[state := map[]];
      assert Transitions.Keys == before.rows + {state};
      ghost var c1 := Classified();
      assert AddRow(before, state) == Success(c1);
      if Start in tags {
        if StartStateSet {
          r := Fail(DuplicateStartState);
          return;
        }
        StartState := state;
        StartStateSet := true;
      }
      ghost var c2 := Classified();
      assert StartRole(c1, d) == Success(c2);
      if Accepting in tags {
        if state in ErrorStates {
          r := Fail(ConflictingRole);
          return;
        }
        AcceptingStates := AcceptingStates + {state};
      }
      ghost var c3 := Classified();
      assert AcceptingRole(c2, d) == Success(c3);
      if FatalError in tags {
        if FatalErrorStateSet {
          r := Fail(DuplicateFatalErrorState);
          return;
        }
        if state in AcceptingStates {
          r := Fail(ConflictingRole);
          return;
        }
        FatalErrorState := state;
        FatalErrorStateSet := true;
        ErrorStates := ErrorStates + {state};
      }
      ghost var c4 := Classified();
      assert FatalErrorRole(c3, d) == Success(c4);
      if Error in tags {
        if state in AcceptingStates {
          r := Fail(ConflictingRole);
          return;
        }
        ErrorStates := ErrorStates + {state};
      }
      assert ErrorRole(c4, d) == Success(Classified());
      r := Pass;
    }

    /** The constructor's loop over the signal domain: declare every value. */
    method DeclareSignals(signals: seq<G>)
      modifies this`Signals
      ensures Signals == old(Signals) + Elements(signals)
    {
      var i := 0;
      while i < |signals|
        invariant 0 <= i <= |signals|
        invariant Signals == old(Signals) + Elements(signals[..i])
      {
        assert signals[..i + 1] == signals[..i] + [signals[i]];
        Signals := Signals + {signals[i]};
        i := i + 1;
      }
      assert signals[..i] == signals;
    }

    /** The constructor: classify the states, declare the signals and start in
        the start state. It fails exactly on the declaration lists that are
        not well-formed; a missing Start or FatalError tag is no failure and
        leaves that state at `zero`. */
    static method Create(name: string, decls: seq<StateDecl<S>>, signals: seq<G>, zero: S)
      returns (r: Result<FiniteStateMachine<S, G>, ConfigError>)
      ensures r.Success? <==> WellFormed(decls)
      ensures r.Failure? ==> Classify(decls, zero) == Failure(r.error) && Justified(r.error, decls)
      ensures r.Success? ==>
        var m := r.value;
        fresh(m) && m.Valid() && m.Name == name &&
        Classify(decls, zero) == Success(m.Classified()) &&
        Describes(m.Classified(), decls, zero) &&
        m.CurrentState == m.StartState &&
        m.Transitions == EmptyRows(StatesOf(decls)) &&
        m.Signals == Elements(signals) &&
        m.Trace == []
    {
      ClassifyCorrect(decls, zero);
      var m := new FiniteStateMachine.Empty(name, zero);
      var o := m.ClassifyStates(decls);
      if o.Fail? {
        return Failure(o.error);
      }
      RolesDisjoint(decls, zero);
      ErrorStatesComposition(decls, zero);
      m.DeclareSignals(signals);
      m.CurrentState := m.StartState;
      assert m.Valid();
      r := Success(m);
    }

    /** Registers Source + Signal -> (Action, Target). */
    method AddTransition(source: S, signal: G, action: ActionId, target: S) returns (r: Outcome<RegistrationError>)
      requires Valid()
      modifies this`Transitions
      ensures Valid()
      ensures match Register(old(Transitions), Signals, source, signal, Transition(action, target))
        case Success(table) => r == Pass && Transitions == table
        case Failure(e) => r == Fail(e) && Transitions == old(Transitions)
    {
      if signal !in Signals {
        return Fail(UnknownSignal);
      }
      if source !in Transitions {
        return Fail(UnknownSource);
      }
      var row := Transitions[source];
      if signal in row {
        return Fail(DuplicateTransition);
      }
      Transitions := Transitions[source := row[signal := Transition(action, target)]];
      r := Pass;
    }

    /** Processes one signal; the actions in `failing` throw when invoked.
        Error states absorb the signal; a defined transition runs its action
        and only then commits the target; an undefined one leads to the fatal
        error state. */
    method ProcessSignal(signal: G, failing: set<ActionId>) returns (r: Outcome<DispatchError>)
      requires Valid()
      modifies this`CurrentState, this`Trace
      ensures Valid()
      ensures var st := Dispatch(Transitions, ErrorStates, FatalErrorState, old(CurrentState), signal, failing);
        CurrentState == st.state && Trace == old(Trace) + st.invoked && r == st.outcome
    {
      if CurrentState in ErrorStates {
        return Pass;
      }
      if CurrentState !in Transitions {
        return Fail(UnknownState);
      }
      var row := Transitions[CurrentState];
      if signal in row {
        var t := row[signal];
        Trace := Trace + [t.action];
        if t.action in failing {
          return Fail(ActionFailed);
        }
        CurrentState := t.target;
      } else {
        CurrentState := FatalErrorState;
      }
      r := Pass;
    }

    /** Whether the current state is accepting; never together with being in
        an error state. */
    function InAcceptingState(): (b: bool)
      reads this
      requires Valid()
      ensures b <==> CurrentState in AcceptingStates
      ensures b ==> CurrentState !in ErrorStates && CurrentState in Transitions
    {
      CurrentState in AcceptingStates
    }

    /** Whether the current state is an error state, the fatal one included;
        never together with being in an accepting state. */
    function InErrorState(): (b: bool)
      reads this
      requires Valid()
      ensures b <==> CurrentState in ErrorStates
      ensures FatalErrorStateSet && CurrentState == FatalErrorState ==> b
      ensures b ==> CurrentState !in AcceptingStates && CurrentState in Transitions
    {
      CurrentState in ErrorStates
    }
  }
}
