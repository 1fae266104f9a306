/** Construction-time classification of the state domain into the start,
    accepting, error and fatal-error roles. `Classify` follows the
    constructor's loop of `FiniteStateMachine` state by state; `WellFormed`
    and `Describes` say declaratively when it succeeds and what it yields. */
module Classification {
  import opened Wrappers

  /** The attributes a state value can carry. */
  datatype Tag = Start | Accepting | Error | FatalError

  /** One value of the state domain with its attributes. A list of these
      comes in the order `Enum.GetValues` yields the values: ascending by
      unsigned value, an alias repeating its value. That order decides which
      exception a defective list raises first. */
  datatype StateDecl<S> = StateDecl(state: S, tags: set<Tag>)

  /** The exceptions the constructor can throw: a state value met twice (the
      row dictionary's duplicate-key error), "Duplicate StartState!",
      "Duplicate FatalErrorState!" and "illegal!". */
  datatype ConfigError = DuplicateState | DuplicateStartState | DuplicateFatalErrorState | ConflictingRole

  /** The fields the constructor fills in: the states that have a row, the
      start state and its flag, the accepting and error sets, and the fatal
      error state and its flag. */
  datatype Roles<S> = Roles(rows: set<S>, start: S, startSet: bool, accepting: set<S>, errors: set<S>,
                            fatal: S, fatalSet: bool)

  /** Before the loop: no rows, empty sets, flags down, and both the start and
      the fatal error state at the type's default value `zero`. */
  function Initial<S>(zero: S): Roles<S>
  {
    Roles({}, zero, false, {}, {}, zero, false)
  }

  /** The private `AddState`: a second row for the same value throws. */
  function AddRow<S>(c: Roles<S>, s: S): Result<Roles<S>, ConfigError>
  {
    if s in c.rows then Failure(DuplicateState) else Success(c.(rows := c.rows + {s}))
  }

  /** The Start attribute: a second start state throws. */
  function StartRole<S>(c: Roles<S>, d: StateDecl<S>): Result<Roles<S>, ConfigError>
  {
    if Start !in d.tags then Success(c)
    else if c.startSet then Failure(DuplicateStartState)
    else Success(c.(start := d.state, startSet := true))
  }

  /** The Accepting attribute: throws if the state is already an error state. */
  function AcceptingRole<S>(c: Roles<S>, d: StateDecl<S>): Result<Roles<S>, ConfigError>
  {
    if Accepting !in d.tags then Success(c)
    else if d.state in c.errors then Failure(ConflictingRole)
    else Success(c.(accepting := c.accepting + {d.state}))
  }

  /** The FatalError attribute: a second fatal error state throws, and so does
      an accepting one; otherwise it is also an error state. */
  function FatalErrorRole<S>(c: Roles<S>, d: StateDecl<S>): Result<Roles<S>, ConfigError>
  {
    if FatalError !in d.tags then Success(c)
    else if c.fatalSet then Failure(DuplicateFatalErrorState)
    else if d.state in c.accepting then Failure(ConflictingRole)
    else Success(c.(fatal := d.state, fatalSet := true, errors := c.errors + {d.state}))
  }

  /** The Error attribute: throws if the state is accepting. */
  function ErrorRole<S>(c: Roles<S>, d: StateDecl<S>): Result<Roles<S>, ConfigError>
  {
    if Error !in d.tags then Success(c)
    else if d.state in c.accepting then Failure(ConflictingRole)
    else Success(c.(errors := c.errors + {d.state}))
  }

  /** One iteration of the constructor's loop, in the order the code checks. */
  function ClassifyState<S>(c: Roles<S>, d: StateDecl<S>): Result<Roles<S>, ConfigError>
  {
    var c1 :- AddRow(c, d.state);
    var c2 :- StartRole(c1, d);
    var c3 :- AcceptingRole(c2, d);
    var c4 :- FatalErrorRole(c3, d);
    ErrorRole(c4, d)
  }

  /** The whole loop: the declarations classified one after the other, the
      first exception ending it. */
  function Classify<S>(ds: seq<StateDecl<S>>, zero: S): Result<Roles<S>, ConfigError>
    decreases |ds|
  {
    if ds == [] then Success(Initial(zero))
    else
      match Classify(ds[..|ds| - 1], zero)
      case Failure(e) => Failure(e)
      case Success(c) => ClassifyState(c, ds[|ds| - 1])
  }

  /** A failure in a prefix is the failure of the whole loop. */
  lemma {:induction false} ClassifyPrefixFailure<S>(ds: seq<StateDecl<S>>, zero: S, i: nat)
    requires i <= |ds| && Classify(ds[..i], zero).Failure?
    ensures Classify(ds, zero) == Classify(ds[..i], zero)
    decreases |ds| - i
  {
    if i < |ds| {
      assert ds[..i + 1][..i] == ds[..i];
      ClassifyPrefixFailure(ds, zero, i + 1);
    } else {
      assert ds[..i] == ds;
    }
  }

  // Declarative description of the domain.

  ghost function StatesOf<S>(ds: seq<StateDecl<S>>): set<S>
  {
    set i | 0 <= i < |ds| :: ds[i].state
  }

  ghost function Tagged<S>(ds: seq<StateDecl<S>>, t: Tag): set<S>
  {
    set i | 0 <= i < |ds| && t in ds[i].tags :: ds[i].state
  }

  ghost predicate Distinct<S>(ds: seq<StateDecl<S>>)
  {
    forall i, j | 0 <= i < j < |ds| :: ds[i].state != ds[j].state
  }

  /** At most one declaration carries `t`. */
  ghost predicate AtMostOne<S>(ds: seq<StateDecl<S>>, t: Tag)
  {
    forall i, j | 0 <= i < j < |ds| && t in ds[i].tags :: t !in ds[j].tags
  }

  /** Accepting together with Error or FatalError on one state. */
  predicate Conflicting<S>(d: StateDecl<S>)
  {
    Accepting in d.tags && (Error in d.tags || FatalError in d.tags)
  }

  ghost predicate NoConflict<S>(ds: seq<StateDecl<S>>)
  {
    forall i | 0 <= i < |ds| :: !Conflicting(ds[i])
  }

  /** The declarations the constructor accepts. A missing Start or
      FatalError tag is accepted. */
  ghost predicate WellFormed<S>(ds: seq<StateDecl<S>>)
  {
    Distinct(ds) && AtMostOne(ds, Start) && AtMostOne(ds, FatalError) && NoConflict(ds)
  }

  /** What a successful classification holds, stated over the declarations. */
  ghost predicate Describes<S>(c: Roles<S>, ds: seq<StateDecl<S>>, zero: S)
  {
    c.rows == StatesOf(ds) &&
    c.accepting == Tagged(ds, Accepting) &&
    c.errors == Tagged(ds, Error) + Tagged(ds, FatalError) &&
    (c.startSet <==> Tagged(ds, Start) != {}) &&
    (c.startSet ==> Tagged(ds, Start) == {c.start}) &&
    (!c.startSet ==> c.start == zero) &&
    (c.fatalSet <==> Tagged(ds, FatalError) != {}) &&
    (c.fatalSet ==> Tagged(ds, FatalError) == {c.fatal}) &&
    (!c.fatalSet ==> c.fatal == zero)
  }

  /** Each exception is thrown only for a declaration list that has the
      defect it names. */
  ghost predicate Justified<S>(e: ConfigError, ds: seq<StateDecl<S>>)
  {
    match e
    case DuplicateState => !Distinct(ds)
    case DuplicateStartState => !AtMostOne(ds, Start)
    case DuplicateFatalErrorState => !AtMostOne(ds, FatalError)
    case ConflictingRole => !NoConflict(ds)
  }

  /** How the declarative notions change when one declaration is appended. */
  lemma {:induction false} SnocStates<S>(ds: seq<StateDecl<S>>)
    requires ds != []
    ensures StatesOf(ds) == StatesOf(ds[..|ds| - 1]) + {ds[|ds| - 1].state}
  {
    var n := |ds| - 1;
    assert forall i | 0 <= i < n :: ds[..n][i] == ds[i];
    forall x | x in StatesOf(ds) ensures x in StatesOf(ds[..n]) + {ds[n].state} {
      var i :| 0 <= i < |ds| && ds[i].state == x;
    }
  }

  lemma {:induction false} SnocTagged<S>(ds: seq<StateDecl<S>>, t: Tag)
    requires ds != []
    ensures var d := ds[|ds| - 1];
      Tagged(ds, t) == Tagged(ds[..|ds| - 1], t) + (if t in d.tags then {d.state} else {})
  {
    var n := |ds| - 1;
    assert forall i | 0 <= i < n :: ds[..n][i] == ds[i];
    forall x | x in Tagged(ds, t)
      ensures x in Tagged(ds[..n], t) + (if t in ds[n].tags then {ds[n].state} else {})
    {
      var i :| 0 <= i < |ds| && t in ds[i].tags && ds[i].state == x;
    }
  }

  lemma {:induction false} TaggedWithin<S>(ds: seq<StateDecl<S>>, t: Tag)
    ensures Tagged(ds, t) <= StatesOf(ds)
  {
    forall x | x in Tagged(ds, t) ensures x in StatesOf(ds) {
      var i :| 0 <= i < |ds| && t in ds[i].tags && ds[i].state == x;
    }
  }

  lemma {:induction false} SnocDistinct<S>(ds: seq<StateDecl<S>>)
    requires ds != []
    ensures Distinct(ds) <==> Distinct(ds[..|ds| - 1]) && ds[|ds| - 1].state !in StatesOf(ds[..|ds| - 1])
  {
    var n := |ds| - 1;
    var p := ds[..n];
    assert forall i | 0 <= i < n :: p[i] == ds[i];
    assert forall i | 0 <= i < n :: ds[i].state in StatesOf(p);
    if ds[n].state in StatesOf(p) {
      var i :| 0 <= i < n && p[i].state == ds[n].state;
      assert ds[i].state == ds[n].state;
    }
    if !Distinct(p) {
      var i, j :| 0 <= i < j < n && p[i].state == p[j].state;
      assert ds[i].state == ds[j].state;
    }
  }

  lemma {:induction false} SnocAtMostOne<S>(ds: seq<StateDecl<S>>, t: Tag)
    requires ds != []
    ensures AtMostOne(ds, t) <==>
      AtMostOne(ds[..|ds| - 1], t) && (t in ds[|ds| - 1].tags ==> Tagged(ds[..|ds| - 1], t) == {})
  {
    var n := |ds| - 1;
    var p := ds[..n];
    assert forall i | 0 <= i < n :: p[i] == ds[i];
    if AtMostOne(p, t) && (t in ds[n].tags ==> Tagged(p, t) == {}) {
      forall i, j | 0 <= i < j < |ds| && t in ds[i].tags ensures t !in ds[j].tags {
        if j < n {
          assert t in p[i].tags;
        } else {
          assert ds[i].state in Tagged(p, t);
        }
      }
    }
    if t in ds[n].tags && Tagged(p, t) != {} {
      var x :| x in Tagged(p, t);
      var i :| 0 <= i < n && t in p[i].tags && p[i].state == x;
      assert t in ds[i].tags && t in ds[n].tags;
    }
    if !AtMostOne(p, t) {
      var i, j :| 0 <= i < j < n && t in p[i].tags && t in p[j].tags;
      assert t in ds[i].tags && t in ds[j].tags;
    }
  }

  lemma {:induction false} SnocNoConflict<S>(ds: seq<StateDecl<S>>)
    requires ds != []
    ensures NoConflict(ds) <==> NoConflict(ds[..|ds| - 1]) && !Conflicting(ds[|ds| - 1])
  {
    var n := |ds| - 1;
    assert forall i | 0 <= i < n :: ds[..n][i] == ds[i];
  }

  /** The loop iteration for a fresh state that raises no exception, spelled
      out as the roles it adds. */
  lemma ClassifyStateSucceeds<S>(c: Roles<S>, d: StateDecl<S>)
    requires d.state !in c.rows && d.state !in c.errors && d.state !in c.accepting
    requires Start in d.tags ==> !c.startSet
    requires FatalError in d.tags ==> !c.fatalSet
    requires !Conflicting(d)
    ensures var r, s := ClassifyState(c, d), d.state;
      r.Success? &&
      r.value.rows == c.rows + {s} &&
      r.value.start == (if Start in d.tags then s else c.start) &&
      r.value.startSet == (c.startSet || Start in d.tags) &&
      r.value.accepting == c.accepting + (if Accepting in d.tags then {s} else {}) &&
      r.value.errors == c.errors + (if Error in d.tags || FatalError in d.tags then {s} else {}) &&
      r.value.fatal == (if FatalError in d.tags then s else c.fatal) &&
      r.value.fatalSet == (c.fatalSet || FatalError in d.tags)
  {
  }

  /** One loop iteration from a classification that describes a well-formed
      prefix: it succeeds exactly when the extended list is well-formed, its
      result describes the extended list, and a failure is justified. */
  lemma {:induction false} ClassifyStateCorrect<S>(ds: seq<StateDecl<S>>, zero: S, c: Roles<S>)
    requires ds != []
    requires WellFormed(ds[..|ds| - 1]) && Describes(c, ds[..|ds| - 1], zero)
    ensures var r := ClassifyState(c, ds[|ds| - 1]);
      (r.Success? <==> WellFormed(ds)) &&
      (r.Success? ==> Describes(r.value, ds, zero)) &&
      (r.Failure? ==> Justified(r.error, ds))
  {
    var p, d := ds[..|ds| - 1], ds[|ds| - 1];
    var s := d.state;
    SnocStates(ds);
    SnocDistinct(ds);
    SnocAtMostOne(ds, Start);
    SnocAtMostOne(ds, FatalError);
    SnocNoConflict(ds);
    if s in c.rows {
      assert ClassifyState(c, d) == Failure(DuplicateState);
    } else if Start in d.tags && c.startSet {
      assert ClassifyState(c, d) == Failure(DuplicateStartState);
    } else {
      TaggedWithin(p, Accepting);
      TaggedWithin(p, Error);
      TaggedWithin(p, FatalError);
      assert s !in c.errors && s !in c.accepting;
      if FatalError in d.tags && c.fatalSet {
        assert ClassifyState(c, d) == Failure(DuplicateFatalErrorState);
      } else if Conflicting(d) {
        assert ClassifyState(c, d) == Failure(ConflictingRole);
      } else {
        ClassifyStateSucceeds(c, d);
        SnocTagged(ds, Start);
        SnocTagged(ds, Accepting);
        SnocTagged(ds, Error);
        SnocTagged(ds, FatalError);
      }
    }
  }

  /** The classification loop accepts exactly the well-formed declaration
      lists, describes them when it does, and never throws without cause. */
  lemma {:induction false} ClassifyCorrect<S>(ds: seq<StateDecl<S>>, zero: S)
    ensures Classify(ds, zero).Success? <==> WellFormed(ds)
    ensures Classify(ds, zero).Success? ==> Describes(Classify(ds, zero).value, ds, zero)
    ensures Classify(ds, zero).Failure? ==> Justified(Classify(ds, zero).error, ds)
    decreases |ds|
  {
    if ds == [] {
      assert StatesOf(ds) == {};
      assert Tagged(ds, Start) == {} && Tagged(ds, FatalError) == {};
      assert Tagged(ds, Accepting) == {} && Tagged(ds, Error) == {};
    } else {
      var p := ds[..|ds| - 1];
      ClassifyCorrect(p, zero);
      SnocDistinct(ds);
      SnocAtMostOne(ds, Start);
      SnocAtMostOne(ds, FatalError);
      SnocNoConflict(ds);
      match Classify(p, zero)
      case Failure(e) =>
      case Success(c) => ClassifyStateCorrect(ds, zero, c);
    }
  }

  /** StartState: two Start tags make construction fail; otherwise the start
      state is the one Start-tagged state, or the default value when no state
      carries the tag. */
  lemma {:induction false} StartStateUnique<S>(ds: seq<StateDecl<S>>, zero: S)
    ensures (exists i, j :: 0 <= i < j < |ds| && Start in ds[i].tags && Start in ds[j].tags) ==>
      Classify(ds, zero).Failure?
    ensures Classify(ds, zero).Success? ==>
      var c := Classify(ds, zero).value;
      (forall i | 0 <= i < |ds| && Start in ds[i].tags :: c.startSet && ds[i].state == c.start) &&
      (c.startSet ==> exists i :: 0 <= i < |ds| && Start in ds[i].tags && ds[i].state == c.start) &&
      (!c.startSet ==> c.start == zero)
  {
    ClassifyCorrect(ds, zero);
    if Classify(ds, zero).Success? {
      var c := Classify(ds, zero).value;
      forall i | 0 <= i < |ds| && Start in ds[i].tags ensures c.startSet && ds[i].state == c.start {
        assert ds[i].state in Tagged(ds, Start);
      }
      if c.startSet {
        assert c.start in Tagged(ds, Start);
      }
    }
  }

  /** FatalErrorState: two FatalError tags make construction fail; otherwise
      the fatal error state is the one FatalError-tagged state, or the
      default value when no state carries the tag. */
  lemma {:induction false} FatalErrorStateUnique<S>(ds: seq<StateDecl<S>>, zero: S)
    ensures (exists i, j :: 0 <= i < j < |ds| && FatalError in ds[i].tags && FatalError in ds[j].tags) ==>
      Classify(ds, zero).Failure?
    ensures Classify(ds, zero).Success? ==>
      var c := Classify(ds, zero).value;
      (forall i | 0 <= i < |ds| && FatalError in ds[i].tags :: c.fatalSet && ds[i].state == c.fatal) &&
      (c.fatalSet ==> exists i :: 0 <= i < |ds| && FatalError in ds[i].tags && ds[i].state == c.fatal) &&
      (!c.fatalSet ==> c.fatal == zero)
  {
    ClassifyCorrect(ds, zero);
    if Classify(ds, zero).Success? {
      var c := Classify(ds, zero).value;
      forall i | 0 <= i < |ds| && FatalError in ds[i].tags ensures c.fatalSet && ds[i].state == c.fatal {
        assert ds[i].state in Tagged(ds, FatalError);
      }
      if c.fatalSet {
        assert c.fatal in Tagged(ds, FatalError);
      }
    }
  }

  /** A state tagged Accepting and Error or FatalError makes construction
      fail, so no constructed machine has a state that is both accepting and
      an error state. */
  lemma {:induction false} RolesDisjoint<S>(ds: seq<StateDecl<S>>, zero: S)
    ensures (exists i :: 0 <= i < |ds| && Conflicting(ds[i])) ==> Classify(ds, zero).Failure?
    ensures Classify(ds, zero).Success? ==>
      Classify(ds, zero).value.accepting !! Classify(ds, zero).value.errors
  {
    ClassifyCorrect(ds, zero);
    if Classify(ds, zero).Success? {
      var c := Classify(ds, zero).value;
      forall x | x in c.accepting ensures x !in c.errors {
        var i :| 0 <= i < |ds| && Accepting in ds[i].tags && ds[i].state == x;
        forall j | 0 <= j < |ds| && (Error in ds[j].tags || FatalError in ds[j].tags)
          ensures ds[j].state != x
        {
          if j < i {
            assert ds[j].state != ds[i].state;
          } else if i < j {
            assert ds[i].state != ds[j].state;
          }
        }
      }
    }
  }

  /** The error states are the Error-tagged states plus the FatalError-tagged
      one, so the fatal error state, when set, is an error state; and the
      accepting states are the Accepting-tagged ones. */
  lemma {:induction false} ErrorStatesComposition<S>(ds: seq<StateDecl<S>>, zero: S)
    requires Classify(ds, zero).Success?
    ensures var c := Classify(ds, zero).value;
      (forall x :: x in c.errors <==>
        exists i :: 0 <= i < |ds| && ds[i].state == x && (Error in ds[i].tags || FatalError in ds[i].tags)) &&
      (forall x :: x in c.accepting <==> exists i :: 0 <= i < |ds| && ds[i].state == x && Accepting in ds[i].tags) &&
      (c.fatalSet ==> c.fatal in c.errors) &&
      c.rows == StatesOf(ds)
  {
    ClassifyCorrect(ds, zero);
    var c := Classify(ds, zero).value;
    forall x ensures x in c.errors <==>
      exists i :: 0 <= i < |ds| && ds[i].state == x && (Error in ds[i].tags || FatalError in ds[i].tags)
    {
      if x in c.errors {
        if x in Tagged(ds, Error) {
          var i :| 0 <= i < |ds| && Error in ds[i].tags && ds[i].state == x;
        } else {
          var i :| 0 <= i < |ds| && FatalError in ds[i].tags && ds[i].state == x;
        }
      }
      if exists i :: 0 <= i < |ds| && ds[i].state == x && (Error in ds[i].tags || FatalError in ds[i].tags) {
        var i :| 0 <= i < |ds| && ds[i].state == x && (Error in ds[i].tags || FatalError in ds[i].tags);
        if Error in ds[i].tags { assert x in Tagged(ds, Error); } else { assert x in Tagged(ds, FatalError); }
      }
    }
    forall x ensures x in c.accepting <==> exists i :: 0 <= i < |ds| && ds[i].state == x && Accepting in ds[i].tags {
      if exists i :: 0 <= i < |ds| && ds[i].state == x && Accepting in ds[i].tags {
        var i :| 0 <= i < |ds| && ds[i].state == x && Accepting in ds[i].tags;
        assert x in Tagged(ds, Accepting);
      }
    }
  }
}
