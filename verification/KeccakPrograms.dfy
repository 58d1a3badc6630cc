/** The programs in the repository that compute Keccak-f[1600], as the loops they are. */
module KeccakPrograms {
  import opened KeccakSpec
  import opened KeccakOrder
  import opened KeccakMachine
  import opened KeccakRefinement

  /** How many calls precede this control word in a run that starts at START. */
  function Position(c: Control): nat {
    27 * c.round +
    match c.precompile
    case 0 => c.iteration
    case 1 => 5
    case 2 => 6
    case 3 => 7 + c.iteration
    case 4 => 12 + c.iteration
    case 5 => 17 + 2 * c.iteration
    case _ => 18 + 2 * c.iteration
  }

  /** The control words a run can show: the column-mix steps come with iteration 0 only. */
  predicate OnPath(c: Control) {
    && c.precompile < 7 && c.iteration < 5
    && ((c.precompile == COLUMNMIX1 || c.precompile == COLUMNMIX2) ==> c.iteration == 0)
  }

  lemma BumpMovesOn(c: Control)
    requires c.Valid() && OnPath(c)
    ensures OnPath(Bump(c)) && Position(Bump(c)) == Position(c) + 1
  {
  }

  lemma PositionValid(c: Control)
    requires OnPath(c)
    ensures Position(c) < NUM_CALLS <==> c.Valid() && (c.round == 24 ==> c.iteration == 0)
  {
  }

  /** No run meets a control word outside the table before call 649. */
  lemma {:induction false} ControlOnPath(m: Memory, n: nat)
    requires n <= NUM_CALLS
    ensures
      var c := Run(State(START, m), n).control;
      OnPath(c) && Position(c) == n && (n < NUM_CALLS ==> c.Valid())
  {
    hide Step, Bump;
    if n > 0 {
      ControlOnPath(m, n - 1);
      RunAdd(State(START, m), n - 1, 1);
      BumpMovesOn(Run(State(START, m), n - 1).control);
    }
    PositionValid(Run(State(START, m), n).control);
  }

  /** Each call decodes the control word that the one before it encoded. */
  lemma ReplayCall(m: Memory, n: nat)
    requires n < NUM_CALLS
    ensures
      var s := Run(State(START, m), n);
      s.control.Valid() && Decode(s.control.Encode()) == s.control && Run(State(START, m), n + 1) == Next(s)
  {
    hide Step, Bump, Next;
    ControlOnPath(m, n);
    DecodeEncode(Run(State(START, m), n).control);
    RunAdd(State(START, m), n, 1);
  }

  lemma ReplayStart(m: Memory)
    ensures Run(State(START, m), 0) == State(START, m) && START.Encode() == 0
  {
  }

  method WriteBack(state: array<Lane>, indexes: seq<nat>, outputs: seq<Lane>)
    requires state.Length == 31 && |indexes| == |outputs| == 6
    requires forall k :: 0 <= k < 6 ==> indexes[k] < 31
    modifies state
    ensures state[..] == Scatter(old(state[..]), indexes, outputs, 6)
  {
    for i := 0 to 6
      invariant state[..] == Scatter(old(state[..]), indexes, outputs, i)
    {
      state[indexes[i]] := outputs[i];
    }
  }

  /** One delegation call: decode, read six words, compute, write six words, advance. */
  method Call(state: array<Lane>, control: nat) returns (next: nat)
    requires state.Length == 31 && Decode(control).Valid()
    modifies state
    ensures next == Bump(Decode(control)).Encode()
    ensures state[..] == Step(Decode(control), old(state[..]))
  {
    hide Outputs, Bump, Place, Scatter;
    var c := Decode(control);
    var indexes := Indices(c);
    var inputs := [state[indexes[0]], state[indexes[1]], state[indexes[2]],
                   state[indexes[3]], state[indexes[4]], state[indexes[5]]];
    assert inputs == Gather(state[..], indexes);
    WriteBack(state, indexes, Outputs(c, inputs));
    next := Bump(c).Encode();
  }

  /** The replay of one permutation, call by call. */
  method Replay(state: array<Lane>, x10: nat) returns (control: nat)
    requires state.Length == 31 && x10 == 0
    modifies state
    ensures control == FINAL_CONTROL
    ensures state[..] == ExtendedKeccakF(old(state[..]))
  {
    hide ExtendedKeccakF, Step, Bump, Decode, Control.Valid, Control.Encode, Run;
    control := x10;
    ghost var m := state[..];
    ReplayStart(m);
    for call := 0 to NUM_CALLS
      invariant state[..] == Run(State(START, m), call).memory
      invariant control == Run(State(START, m), call).control.Encode()
    {
      ReplayCall(m, call);
      control := Call(state, control);
    }
    WholeRun(m);
  }
}
