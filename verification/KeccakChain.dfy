/** A trace of rows of the keccak_special5 circuit, linked only by what the circuit enforces. */
module KeccakChain {
  import opened KeccakSpec
  import opened KeccakMachine
  import opened KeccakRefinement
  import opened KeccakPrograms
  import opened WordShifts
  import opened WordPieces
  import opened KeccakHalves
  import opened KeccakRows
  import opened KeccakCircuit

  /** One executing row: its control word, the words that it reads and everything in its places. */
  datatype Entry = Entry(control: Control, words: Words, values: Values)

  /** The places written hold the limbs of these lanes. */
  ghost predicate Writes(v: Values, out: seq<Lane>) {
    v.Shaped() && |out| == 6 && forall k :: 0 <= k < 6 ==> v.output[k] == Limbs(Parts(out[k]))
  }

  /** One row between two memories. The memory argument supplies the words that the index tables ask
      for and takes back what is written; the row itself is only known to satisfy the circuit. */
  ghost predicate Link(m: Memory, e: Entry, m': Memory)
    requires e.control.Valid()
  {
    && RowHolds(e.control, e.words, e.values)
    && Lanes6(e.words) == Gather(m, Indices(e.control))
    && exists out :: |out| == 6 && Writes(e.values, out) && m' == Scatter(m, Indices(e.control), out, 6)
  }

  /** The one-hot flags of step and iteration: they bound these two fields, and say nothing of the round. */
  predicate FlagsOneHot(c: Control) {
    c.precompile < 7 && c.iteration < 5
  }

  /** A trace: it starts from control word 0, every row has one-hot flags and links two memories, and
      every next control word meets the circuit's linear constraint. That the index tables know a control
      word is asked of no row: a row whose control word they do not know need not link anything. */
  ghost predicate Trace(memories: seq<Memory>, entries: seq<Entry>) {
    && |memories| == |entries| + 1
    && (|entries| > 0 ==> entries[0].control.Encode() == 0)
    && (forall n {:trigger entries[n]} :: 0 <= n < |entries| ==> FlagsOneHot(entries[n].control))
    && (forall n {:trigger entries[n]} :: 0 <= n < |entries| && entries[n].control.Valid() ==>
      Link(memories[n], entries[n], memories[n + 1]))
    && (forall n {:trigger entries[n]} :: 0 < n < |entries| ==>
      entries[n].control.Encode() == NextControlExpression(entries[n - 1].control))
  }

  lemma LimbsInjective(u: Halves, v: Halves)
    requires Limbs(u) == Limbs(v)
    ensures u == v
  {
    LimbsFix(u);
    LimbsFix(v);
    hide Word32, Word16, Value16, LowLimb, HighLimb;
  }

  lemma LimbsFix(u: Halves)
    ensures
      var s := Limbs(u);
      u == Halves(Word32(Word16(s[1]), Word16(s[0])), Word32(Word16(s[3]), Word16(s[2])))
  {
    hide Word32, Word16, Value16, LowLimb, HighLimb;
    WordValue(LowLimb(u.low));
    WordValue(HighLimb(u.low));
    WordValue(LowLimb(u.high));
    WordValue(HighLimb(u.high));
    LimbsWord(u.low);
    LimbsWord(u.high);
  }

  lemma WritesOutputs(c: Control, w: Words, v: Values, out: seq<Lane>)
    requires c.Valid() && RowHolds(c, w, v) && Writes(v, out)
    ensures out == Outputs(c, Lanes6(w))
  {
    hide RowHolds, Limbs, Parts, Join, StepHalves, Outputs;
    RowDetermines(c, w, v);
    StepHalvesIsStep(c, w);
    forall k | 0 <= k < 6 ensures out[k] == Outputs(c, Lanes6(w))[k] {
      LimbsInjective(Parts(out[k]), StepHalves(c, w)[k]);
      JoinParts(out[k]);
    }
  }

  /** A row that satisfies the circuit performs the machine's step, whatever its places hold. */
  lemma LinkIsStep(m: Memory, e: Entry, m': Memory)
    requires e.control.Valid() && Link(m, e, m')
    ensures m' == Step(e.control, m)
  {
    hide RowHolds, Writes, Lanes6, Outputs, Indices, Gather, Scatter;
    var out :| |out| == 6 && Writes(e.values, out) && m' == Scatter(m, Indices(e.control), out, 6);
    WritesOutputs(e.control, e.words, e.values, out);
  }

  lemma EncodeInjective(c: Control, d: Control)
    requires c.precompile < 8 && c.iteration < 8 && d.precompile < 8 && d.iteration < 8 && c.Encode() == d.Encode()
    ensures c == d
  {
    DecodeEncode(c);
    DecodeEncode(d);
  }

  /** Row by row, a trace is the run of the machine. */
  lemma {:induction false} TraceIsRun(memories: seq<Memory>, entries: seq<Entry>, n: nat)
    requires Trace(memories, entries) && n <= |entries| <= NUM_CALLS
    ensures
      var s := Run(State(START, memories[0]), n);
      memories[n] == s.memory && (n < |entries| ==> entries[n].control == s.control && s.control.Valid())
  {
    hide Link, Step, Bump, Run, Control.Encode, NextControlExpression;
    var start := State(START, memories[0]);
    if n == 0 {
      ZeroRun(start);
      ZeroControl(entries, memories);
      StartEncodes();
    } else {
      TraceIsRun(memories, entries, n - 1);
      var s := Run(start, n - 1);
      var e := entries[n - 1];
      ControlOnPath(memories[0], n - 1);
      RunAdd(start, n - 1, 1);
      SingleCall(s);
      assert Link(memories[n - 1], e, memories[n]);
      LinkIsStep(memories[n - 1], e, memories[n]);
      if n < |entries| {
        assert FlagsOneHot(entries[n].control);
        NextControlConstraint(e.control);
        ControlOnPath(memories[0], n);
        EncodeInjective(entries[n].control, Bump(e.control));
      }
    }
  }

  lemma ZeroRun(s: State)
    ensures Run(s, 0) == s
  {
  }

  lemma ZeroControl(entries: seq<Entry>, memories: seq<Memory>)
    requires Trace(memories, entries)
    ensures |entries| > 0 ==> entries[0].control == START
  {
    hide Link;
    if |entries| > 0 {
      assert FlagsOneHot(entries[0].control);
      EncodeInjective(entries[0].control, START);
    }
  }

  /** Whatever a prover puts into 649 rows, if they satisfy the circuit then the index tables know every
      control word, memory holds Keccak-f[1600] of the state it started with, and the control word has
      its final value. */
  lemma TraceComputesKeccak(memories: seq<Memory>, entries: seq<Entry>)
    requires Trace(memories, entries) && |entries| == NUM_CALLS
    ensures forall n :: 0 <= n < NUM_CALLS ==> entries[n].control.Valid()
    ensures memories[NUM_CALLS] == ExtendedKeccakF(memories[0])
    ensures NextControlExpression(entries[NUM_CALLS - 1].control) == FINAL_CONTROL
  {
    hide Link, Step, Run, ExtendedKeccakF, NextControlExpression, Control.Encode, Bump;
    forall n | 0 <= n < NUM_CALLS ensures entries[n].control.Valid() {
      TraceIsRun(memories, entries, n);
    }
    TraceIsRun(memories, entries, NUM_CALLS);
    WholeRun(memories[0]);
    var n := NUM_CALLS - 1;
    TraceIsRun(memories, entries, n);
    ControlOnPath(memories[0], n);
    RunAdd(State(START, memories[0]), n, 1);
    SingleCall(Run(State(START, memories[0]), n));
    NextControlConstraint(entries[n].control);
  }

  /** The row that the witness computation gives for a control word and a memory. */
  ghost function HonestEntry(c: Control, m: Memory): Entry
    requires c.Valid()
  {
    var g := Gather(m, Indices(c));
    var w: Words := [Parts(g[0]), Parts(g[1]), Parts(g[2]), Parts(g[3]), Parts(g[4]), Parts(g[5])];
    Entry(c, w, Honest(c, w))
  }

  lemma PartsJoin(u: Halves)
    ensures Parts(Join(u)) == u
  {
    hide Glue, LowHalf, HighHalf;
    GlueParts(u.high, u.low);
  }

  lemma HonestWords(c: Control, m: Memory)
    requires c.Valid()
    ensures Lanes6(HonestEntry(c, m).words) == Gather(m, Indices(c))
  {
    hide Indices, Gather, Join, Parts, Honest;
    var g := Gather(m, Indices(c));
    JoinParts(g[0]);
    JoinParts(g[1]);
    JoinParts(g[2]);
    JoinParts(g[3]);
    JoinParts(g[4]);
    JoinParts(g[5]);
  }

  lemma HonestWrites(c: Control, w: Words)
    requires c.Valid()
    ensures Writes(Honest(c, w), Outputs(c, Lanes6(w)))
  {
    hide Outputs, StepHalves, Temporaries, StepRows, Limbs, Parts, Join;
    StepHalvesIsStep(c, w);
    var out := StepHalves(c, w);
    forall k | 0 <= k < 6 ensures Honest(c, w).output[k] == Limbs(Parts(Outputs(c, Lanes6(w))[k])) {
      PartsJoin(out[k]);
    }
  }

  lemma HonestLink(c: Control, m: Memory)
    requires c.Valid()
    ensures Link(m, HonestEntry(c, m), Step(c, m))
  {
    hide RowHolds, Honest, Lanes6, Gather, Indices, Outputs, Scatter, Writes, Parts;
    var e := HonestEntry(c, m);
    HonestWords(c, m);
    HonestHolds(c, e.words);
    HonestWrites(c, e.words);
  }

  /** The circuit can always be satisfied: from any memory there is a trace of every length up to 649,
      row by row the one that the witness computation gives. */
  lemma {:induction false} HonestTrace(m: Memory, n: nat) returns (memories: seq<Memory>, entries: seq<Entry>)
    requires n <= NUM_CALLS
    ensures Trace(memories, entries) && |entries| == n
    ensures memories[0] == m && memories[n] == Run(State(START, m), n).memory
    ensures n > 0 ==> entries[n - 1].control == Run(State(START, m), n - 1).control
  {
    hide Link, Step, Bump, Run, Control.Encode, NextControlExpression, HonestEntry;
    var start := State(START, m);
    if n == 0 {
      ZeroRun(start);
      memories, entries := [m], [];
    } else {
      memories, entries := HonestTrace(m, n - 1);
      var s := Run(start, n - 1);
      ControlOnPath(m, n - 1);
      RunAdd(start, n - 1, 1);
      SingleCall(s);
      HonestLink(s.control, s.memory);
      assert HonestEntry(s.control, s.memory).control == s.control by {
        EntryControl(s.control, s.memory);
      }
      if n == 1 {
        ZeroRun(start);
        StartEncodes();
      } else {
        ControlOnPath(m, n - 2);
        RunAdd(start, n - 2, 1);
        SingleCall(Run(start, n - 2));
        NextControlConstraint(entries[n - 2].control);
      }
      memories, entries := memories + [Step(s.control, s.memory)], entries + [HonestEntry(s.control, s.memory)];
    }
  }

  lemma EntryControl(c: Control, m: Memory)
    requires c.Valid()
    ensures HonestEntry(c, m).control == c
  {
  }

  lemma StartEncodes()
    ensures START.Valid() && START.Encode() == 0
  {
  }
}
