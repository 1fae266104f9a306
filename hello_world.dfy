/** The three-signal demonstration machine of the console application:
    Start --Hello--> Middle --World--> End, with Error as the fatal error
    state. */
module HelloWorld {
  import opened Wrappers
  import opened TransitionTable
  import opened SignalDispatch
  import C = Classification
  import opened FiniteStateMachines

  /** In declaration order, which here is also ascending value order;
      `Start` is the enum's default value. */
  datatype State = Start | Middle | End | Error

  datatype Signal = Hello | World | GoToHell

  /** The actions writing "Hello received!" and "World received!". */
  const HelloReceived: ActionId := 1
  const WorldReceived: ActionId := 2

  function Decls(): seq<C.StateDecl<State>>
  {
    [C.StateDecl(Start, {C.Start}), C.StateDecl(Middle, {}), C.StateDecl(End, {C.Accepting}),
     C.StateDecl(Error, {C.FatalError})]
  }

  /** The classification the constructor computes for the demo states. */
  lemma DeclsClassified()
    ensures C.Classify(Decls(), Start) ==
      Success(C.Roles({Start, Middle, End, Error}, Start, true, {End}, {Error}, Error, true))
  {
    var ds := Decls();
    var c1 := C.Roles({Start}, Start, true, {}, {}, Start, false);
    var c2 := c1.(rows := {Start, Middle});
    var c3 := c2.(rows := {Start, Middle, End}, accepting := {End});
    var c4 := c3.(rows := {Start, Middle, End, Error}, errors := {Error}, fatal := Error, fatalSet := true);
    assert C.Classify(ds[..1], Start) == Success(c1) by {
      assert ds[..1][..0] == [];
      assert C.Initial(Start).rows + {Start} == {Start};
    }
    assert C.Classify(ds[..2], Start) == Success(c2) by {
      assert ds[..2][..1] == ds[..1];
      assert c1.rows + {Middle} == {Start, Middle};
    }
    assert C.Classify(ds[..3], Start) == Success(c3) by {
      assert ds[..3][..2] == ds[..2];
      assert c2.rows + {End} == {Start, Middle, End} && c2.accepting + {End} == {End};
    }
    assert C.Classify(ds[..4], Start) == Success(c4) by {
      assert ds[..4][..3] == ds[..3];
      assert c3.rows + {Error} == {Start, Middle, End, Error} && c3.errors + {Error} == {Error};
    }
    assert ds[..4] == ds;
  }

  /** The construction of FSM1 and its two transitions. */
  method Setup() returns (fsm1: FiniteStateMachine<State, Signal>)
    ensures fresh(fsm1) && fsm1.Valid()
    ensures fsm1.CurrentState == Start && fsm1.ErrorStates == {Error} && fsm1.FatalErrorState == Error
    ensures fsm1.AcceptingStates == {End} && fsm1.Trace == []
    ensures fsm1.Transitions.Keys == {Start, Middle, End, Error}
    ensures fsm1.Transitions[Start] == map[Hello := Transition(HelloReceived, Middle)]
    ensures fsm1.Transitions[Middle] == map[World := Transition(WorldReceived, End)]
  {
    DeclsClassified();
    var signals := [Hello, World, GoToHell];
    var created := FiniteStateMachine.Create("FSM1", Decls(), signals, Start);
    fsm1 := created.value;
    ghost var rows := fsm1.Transitions;
    assert rows.Keys == {Start, Middle, End, Error};
    assert rows[Start] == map[] && rows[Middle] == map[];
    assert Hello in fsm1.Signals by {
      assert signals[0] == Hello;
    }
    var added := fsm1.AddTransition(Start, Hello, HelloReceived, Middle);
    assert added == Pass;
    assert World in fsm1.Signals by {
      assert signals[1] == World;
    }
    added := fsm1.AddTransition(Middle, World, WorldReceived, End);
    assert added == Pass;
  }

  /** The console program: print the current state of FSM1, then process
      Hello, GoToHell and Hello, printing the current state after each.
      Returns what is printed and the actions invoked. */
  method Program() returns (printed: seq<State>, ghost invoked: seq<ActionId>)
    ensures printed == [Start, Middle, Error, Error]
    ensures invoked == [HelloReceived]
  {
    var fsm1 := Setup();
    printed := [fsm1.CurrentState];
    var processed := fsm1.ProcessSignal(Hello, {});
    printed := printed + [fsm1.CurrentState];
    processed := fsm1.ProcessSignal(GoToHell, {});
    printed := printed + [fsm1.CurrentState];
    processed := fsm1.ProcessSignal(Hello, {});
    printed := printed + [fsm1.CurrentState];
    invoked := fsm1.Trace;
  }

  /** The same states with the FatalError attribute removed from Error. */
  function DeclsWithoutFatal(): seq<C.StateDecl<State>>
  {
    [C.StateDecl(Start, {C.Start}), C.StateDecl(Middle, {}), C.StateDecl(End, {C.Accepting}),
     C.StateDecl(Error, {})]
  }

  /** Without a FatalError tag construction still succeeds, the fatal error
      state stays at the default value `Start`, which is no error state, and
      an unhandled signal in Middle sends the machine back to Start, where
      it goes on processing signals. */
  lemma UntaggedFallbackIsDefault()
    ensures var r := C.Classify(DeclsWithoutFatal(), Start);
      r.Success? && !r.value.fatalSet && r.value.fatal == Start && Start !in r.value.errors &&
      var table := map[Start := map[Hello := Transition(HelloReceived, Middle)], Middle := map[]];
      Dispatch(table, r.value.errors, r.value.fatal, Middle, GoToHell, {}) == Step(Start, [], Pass) &&
      Dispatch(table, r.value.errors, r.value.fatal, Start, Hello, {}) == Step(Middle, [HelloReceived], Pass)
  {
    var ds := DeclsWithoutFatal();
    var c1 := C.Roles({Start}, Start, true, {}, {}, Start, false);
    var c2 := c1.(rows := {Start, Middle});
    var c3 := c2.(rows := {Start, Middle, End}, accepting := {End});
    var c4 := c3.(rows := {Start, Middle, End, Error});
    assert C.Classify(ds[..1], Start) == Success(c1) by {
      assert ds[..1][..0] == [];
      assert C.Initial(Start).rows + {Start} == {Start};
    }
    assert C.Classify(ds[..2], Start) == Success(c2) by {
      assert ds[..2][..1] == ds[..1];
      assert c1.rows + {Middle} == {Start, Middle};
    }
    assert C.Classify(ds[..3], Start) == Success(c3) by {
      assert ds[..3][..2] == ds[..2];
      assert c2.rows + {End} == {Start, Middle, End} && c2.accepting + {End} == {End};
    }
    assert C.Classify(ds[..4], Start) == Success(c4) by {
      assert ds[..4][..3] == ds[..3];
      assert c3.rows + {Error} == {Start, Middle, End, Error};
    }
    assert ds[..4] == ds;
  }
}
