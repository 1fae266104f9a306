# Vanaheimr FSM in Dafny

A model of the two finite-state-machine engines of Vanaheimr FSM, with their
contracts proved.

- `FiniteStateMachine<TState, TSignal>` is the enum-driven engine. Its
  constructor walks the state enum and gives every value an empty row in the
  transition table. It sorts each value into the start, accepting, error and
  fatal-error roles according to its attributes, and throws on a duplicate or
  conflicting role. It then declares every signal value and starts in the
  start state. `AddTransition` registers one (Source, Signal) entry.
  `ProcessSignal` ignores signals in error states. Otherwise it runs the
  matching action and only then commits its target, or it falls back to the
  fatal error state when no entry matches.
- `Machine<TStates, TSignal>` is the earlier engine. It has one error state,
  given to the constructor. States and signals are registered one call at a
  time. `SetState` overwrites the current state without any check.

Modelling choices:

- Each engine is a Dafny `class` whose fields are the C# fields. Its methods
  change those fields under `modifies` and are proved against specification
  functions on values:
  - `TransitionTable.Register` specifies registration of a transition;
  - `SignalDispatch.Dispatch` specifies processing of one signal, and
    `SignalDispatch.Run` a sequence of signals;
  - `Classification.ClassifyState` and `Classification.Classify` specify the
    constructor's loop. `Classification.WellFormed` and
    `Classification.Describes` say declaratively when it succeeds and what
    it yields.
- The state attributes that the constructor reads by reflection are an
  explicit input. It is a sequence of `StateDecl(state, tags)` in the
  order `Enum.GetValues` yields the values: ascending by unsigned value,
  with an alias repeating its value. That order, not the declaration
  order, decides which exception a defective enum raises first. The signal
  enum is a sequence of values. The enum's default value is the parameter
  `zero`.
- A thrown exception is a returned `Result` or `Outcome`. A missing key in a
  dictionary lookup becomes `UnknownSource` or `UnknownState`. A duplicate key
  in a dictionary `Add` becomes `DuplicateState`, `StateAlreadyAdded` or
  `DuplicateTransition`.
- An action is an opaque `ActionId`. The set `failing` says which actions
  throw when invoked. The ghost field `Trace` records every invocation in
  order, including one that throws.
- `Machine.CurrentState` is an `Option`: `None` stands for null. The
  constructor takes the default value of the state type. That is `None` for
  a reference type and `Some(d)` for a value type such as an enum.

Neither `ProcessSignal` method can change the table, the error states or
the fallback state: their frame is `CurrentState` and `Trace`. A caller's
sequence of `ProcessSignal` calls therefore follows `SignalDispatch.Run`
over the same signals, so `RunAbsorbing`, `RunStaysRegistered` and
`RunAppend` describe such sequences.

`HelloWorld` replays the console demo. It builds FSM1, adds its two
transitions and processes Hello, GoToHell and Hello. The printed states are
Start, Middle, Error, Error, and only the Hello action runs.

## Model

| member | source | states |
|---|---|---|
| TransitionTable.Register | FSM/FiniteStateMachine.cs:281-291 | Fails with UnknownSignal exactly when the signal is undeclared, with UnknownSource exactly when the source has no row, and with DuplicateTransition exactly when the key is taken. On success the rows stay the same, the key maps to the new transition, and only declared signals stay in the table. |
| TransitionTable.RegisterFrame | FSM/FiniteStateMachine.cs:287-289 | A successful registration leaves the lookup of every other (Source, Signal) key unchanged. |
| TransitionTable.RegisterTwice | FSM/FiniteStateMachine.cs:289 | A second registration under the same key fails whatever it carries, and the first entry is kept. |
| SignalDispatch.DispatchAbsorbing | FSM/FiniteStateMachine.cs:304-305 | From an error state the signal is ignored: same state, no action invoked, normal return. |
| SignalDispatch.DispatchDefined | FSM/FiniteStateMachine.cs:311-315 | With a matching entry, its action is invoked exactly once. The target is committed only if the action returns; a throwing action leaves the state unchanged. |
| SignalDispatch.DispatchUndefined | FSM/FiniteStateMachine.cs:317-320 | With no matching entry, the machine moves to the fallback state and invokes nothing. |
| SignalDispatch.DispatchUnregistered | FSM/FiniteStateMachine.cs:307 | From a non-error state without a row, the lookup throws; the state is unchanged and nothing is invoked. |
| SignalDispatch.RunAbsorbing | FSM/FiniteStateMachine.cs:304-305 | Once in an error state, any sequence of signals leaves the machine there and invokes nothing. |
| SignalDispatch.RunStaysRegistered | FSM/FiniteStateMachine.cs:307-320 | When all targets and the fallback have rows, a run from a registered state stays among registered states, never hits the missing-row error, and invokes at most one action per signal. |
| SignalDispatch.RunAppend | FSM/FiniteStateMachine.cs:301-322 | Processing `a + b` is processing `a`, then `b` from where `a` ended, unless an exception escaped during `a`. |
| Classification.ClassifyPrefixFailure | FSM/FiniteStateMachine.cs:179-234 | An exception thrown at some state ends the whole loop with that exception. |
| Classification.ClassifyStateSucceeds | FSM/FiniteStateMachine.cs:182-232 | For a new, conflict-free state whose unique roles are still free, one iteration succeeds and updates each field exactly as its attributes say. |
| Classification.ClassifyStateCorrect | FSM/FiniteStateMachine.cs:182-232 | One iteration keeps the declarative description: it succeeds exactly when the longer declaration list is well-formed, and every exception names a defect the list has. |
| Classification.ClassifyCorrect | FSM/FiniteStateMachine.cs:179-234 | The loop succeeds exactly on well-formed declarations (distinct states, at most one Start, at most one FatalError, no accepting error state). On success it yields the rows, roles and flags the tags describe; each exception names a defect the list has. |
| Classification.StartStateUnique | FSM/FiniteStateMachine.cs:187-196 | Two Start-tagged states make construction fail. Otherwise the start state is the unique Start-tagged state, or the default value if none is tagged. |
| Classification.FatalErrorStateUnique | FSM/FiniteStateMachine.cs:208-222 | Two FatalError-tagged states make construction fail. Otherwise the fatal error state is the unique FatalError-tagged state, or the default value if none is tagged. |
| Classification.RolesDisjoint | FSM/FiniteStateMachine.cs:198-232 | A state tagged Accepting together with Error or FatalError makes construction fail, so every constructed machine has disjoint accepting and error sets. |
| Classification.ErrorStatesComposition | FSM/FiniteStateMachine.cs:208-232 | The error states are exactly the Error- and FatalError-tagged states, and the accepting states exactly the Accepting-tagged ones. A set fatal error state is an error state, and every state has a row. |
| FiniteStateMachines.FiniteStateMachine.Empty | FSM/FiniteStateMachine.cs:171-177 | Before the loop: no rows, empty role sets, both flags down, and the start and fatal error states at the default value. |
| FiniteStateMachines.FiniteStateMachine.ClassifyStates | FSM/FiniteStateMachine.cs:179-234 | The loop succeeds exactly when `Classify` does and then leaves the fields equal to its result with every row empty. On failure it throws `Classify`'s exception. Signals, trace and current state are untouched. |
| FiniteStateMachines.FiniteStateMachine.ClassifyOne | FSM/FiniteStateMachine.cs:182-232 | One iteration, including the private `AddState` of lines 253-257, changes the fields exactly as `ClassifyState` says, or throws its exception; signals, trace and current state are untouched. |
| FiniteStateMachines.FiniteStateMachine.DeclareSignals | FSM/FiniteStateMachine.cs:238-239 | Every signal value is declared, by the private `AddSignal` of lines 263-267. |
| FiniteStateMachines.FiniteStateMachine.Create | FSM/FiniteStateMachine.cs:162-244 | Construction fails exactly on ill-formed declarations, with a justified exception. A constructed machine is valid, its roles are the ones the tags describe, it is in its start state, every state has an empty row, every signal is declared, and no action has run. |
| FiniteStateMachines.FiniteStateMachine.AddTransition | FSM/FiniteStateMachine.cs:281-291 | The table becomes what `Register` yields, or stays unchanged when `Register` fails; validity is kept. |
| FiniteStateMachines.FiniteStateMachine.ProcessSignal | FSM/FiniteStateMachine.cs:301-322 | The current state, the trace and the outcome follow `Dispatch`, with the error states absorbing and the fatal error state as fallback; validity is kept. |
| FiniteStateMachines.FiniteStateMachine.InAcceptingState | FSM/FiniteStateMachine.cs:96-102 | True exactly when the current state is accepting; then it is registered and not an error state. |
| FiniteStateMachines.FiniteStateMachine.InErrorState | FSM/FiniteStateMachine.cs:131-137 | True exactly when the current state is an error state, which includes a set fatal error state; then it is registered and not accepting. |
| Machines.Machine.constructor | FSM/Machine.cs:25-32 | Only the error state has a row, and that row is empty. No signal is declared, the current state is the type's default, and no action has run. |
| Machines.Machine.AddRow | FSM/Machine.cs:34-38 | Adds an empty row exactly when the state has none, and fails otherwise, leaving the table unchanged. |
| Machines.Machine.AddState | FSM/Machine.cs:40-50 | Registers the state like `AddRow`. It makes the state current only when the registration succeeded and no state was current. |
| Machines.Machine.SetState | FSM/Machine.cs:52-55 | The current state becomes the given one, without any check, and nothing else changes. |
| Machines.Machine.AddSignal | FSM/Machine.cs:57-61 | The signal set gains the signal, so a second declaration changes nothing; no other field changes. |
| Machines.Machine.AddTransition | FSM/Machine.cs:65-75 | The table becomes what `Register` yields, or stays unchanged when `Register` fails: on an undeclared signal, an unregistered source or a taken key. |
| Machines.Machine.ProcessSignal | FSM/Machine.cs:77-98 | A null current state throws. Otherwise state, trace and outcome follow `Dispatch`, with the error state absorbing and as fallback. A state without a row, for example one set by `SetState`, throws on lookup. |
| HelloWorld.DeclsClassified | TestApplication1/Program.cs:9-23 | The demo enum classifies to start Start, accepting {End}, error and fatal error Error. |
| HelloWorld.Setup | TestApplication1/Program.cs:38-41 | FSM1 is valid, starts in Start, and holds exactly the Hello and World transitions in the Start and Middle rows. |
| HelloWorld.Program | TestApplication1/Program.cs:43-55 | The printed states are Start, Middle, Error, Error, and only the Hello action is invoked. |
| HelloWorld.UntaggedFallbackIsDefault | FSM/FiniteStateMachine.cs:208-222 | Without a FatalError tag construction still succeeds. The fatal error state stays the default value, which is not an error state, so an unhandled signal sends the machine back to that state, where it goes on processing signals. |

## Left out

- The `IsEnum` checks of the type parameters (FSM/FiniteStateMachine.cs:165-169): the model takes the state and signal domains as explicit sequences instead.
- Reflection over enum members and their attributes (FSM/FiniteStateMachine.cs:183-185): replaced by the `StateDecl` input.
- The parameterless constructor's `Guid` name (FSM/FiniteStateMachine.cs:151): the name is an arbitrary string parameter.
- What an action does (console output in the demo): an action is an opaque id that either returns or throws.
- FSM/TCPFiniteStateMachine.cs: a fixed configuration with no logic of its own; it is not part of this model.
- Thread safety and re-entrant actions: the model is sequential.
- Null states and signals in `Machine`, whose type parameters are unconstrained: the model's `S` and `G` have no null value. So the model leaves out that the constructor and `AddState` throw on a null state in `Transitions.Add` (FSM/Machine.cs:31, 36, 43), that `AddTransition` throws on a null source at the row lookup (:71) and on a null signal in `d1.Add` (:73), that `AddSignal` accepts null (:59), that `ProcessSignal` throws on a null signal in `TryGetValue` (:87) instead of falling back to the error state, and that `SetState` can store null (:54).
- The public `AcceptingStates`/`ErrorStates` enumerations: they are the fields themselves.

Where the code differs from what one might expect, the model follows the code:

- A state enum without a Start attribute does not make the constructor throw; the start state, and so the initial current state, stays the default value.
- Without a FatalError attribute the fallback of `ProcessSignal` is the default value, which need not be an error state (`HelloWorld.UntaggedFallbackIsDefault`).
- The accepting-branch check at FSM/FiniteStateMachine.cs:201 can never fire, because the error tags of a state are read after its Accepting tag; conflicts are caught by the checks at lines 214 and 227. The model keeps the check.
- For an enum state type the null test of `Machine.AddState` never holds, so `AddState` never sets the current state; the model covers both cases through the constructor's `defaultState`.
