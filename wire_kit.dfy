/**
 * The wire-circuit simulator (2015 day 7): named wires holding an unknown or
 * a 16-bit signal, gates read from text lines, and an evaluator that sweeps
 * the gate list until no wire is unknown.
 *
 * The evaluator is specified by pure functions (`Fire` for one gate,
 * `SweepPrefix` for part of a sweep, `Sweeps` for the repeated sweeps) and
 * implemented by the `WiresKit` class, whose methods update the wire map and
 * the gate list in place as the source does.
 */
module WireKit {
  import opened Wrappers
  import opened Text

  /** Rust's `u16`, for the shift factor, which is kept as a number. */
  type U16 = n: int | 0 <= n < 0x1_0000

  /** The state of one wire: not yet known, or a 16-bit signal. */
  datatype Wire = Unknown | Signal(value: bv16)

  /** A gate operand: a reference to a wire by name, or a constant signal. */
  datatype Input = WireIn(name: string) | SignalIn(value: bv16)

  /** The six gate kinds; each drives the wire named `output`. */
  datatype Gate =
    | Relay(input: Input, output: string)
    | Not(input: Input, output: string)
    | And(a: Input, b: Input, output: string)
    | Or(a: Input, b: Input, output: string)
    | LShift(input: Input, factor: U16, output: string)
    | RShift(input: Input, factor: U16, output: string)

  /** What `process_instruction` reports about a line. */
  datatype Process = InputLine | RelayLine | NotLine | AndLine | OrLine | LShiftLine | RShiftLine | Error

  /** The error tags of `evaluate_circuit`; `ShiftDirectionError` is never produced. */
  datatype EvaluateError =
    | NotInputError
    | AndInputBError
    | OrInputAError
    | OrInputBError
    | ShiftInputError
    | ShiftDirectionError

  // ---------------------------------------------------------------------
  // Parsing one instruction line
  // ---------------------------------------------------------------------

  /** What one line asks of the kit: set a wire, add a gate, or nothing. */
  datatype Instruction = SetSignal(wire: string, value: bv16) | Connect(gate: Gate) | Rejected

  /** Rust's `parse::<u16>()`. */
  function ParseU16(t: string): Option<nat>
  {
    ParseUnsigned(t, 0xFFFF)
  }

  /** The left operand of AND: a number that fits in 16 bits is a constant, anything else a wire name. */
  function AndLeftOperand(t: string): (i: Input)
    ensures i.SignalIn? <==> ParseU16(t).Some?
  {
    match ParseU16(t)
    case Some(v) => SignalIn(v as bv16)
    case None => WireIn(t)
  }

  /**
   * The evaluator's error tag for a gate that holds a constant in a slot
   * that must name a wire, checked in the order the evaluator checks them.
   */
  function Malformed(g: Gate): Option<EvaluateError>
  {
    match g
    case Relay(input, _) => if input.SignalIn? then Some(NotInputError) else None
    case Not(input, _) => if input.SignalIn? then Some(NotInputError) else None
    case And(_, b, _) => if b.SignalIn? then Some(AndInputBError) else None
    case Or(a, b, _) =>
      if a.SignalIn? then Some(OrInputAError) else if b.SignalIn? then Some(OrInputBError) else None
    case LShift(input, _, _) => if input.SignalIn? then Some(ShiftInputError) else None
    case RShift(input, _, _) => if input.SignalIn? then Some(ShiftInputError) else None
  }

  /**
   * The six line forms, tried in the source's order: literal, relay, NOT,
   * AND, OR, shift. Each form is a whole line of single-space separated
   * tokens, so a line is split on ' ' and the tokens are matched.
   */
  function ParseInstruction(s: string): (r: Instruction)
    ensures r.SetSignal? ==> IsLowerWord(r.wire)
    ensures r.Connect? ==> Malformed(r.gate).None? && IsLowerWord(r.gate.output)
  {
    var t := Split(s, ' ');
    if |t| == 3 && IsDigits(t[0]) && t[1] == "->" && IsLowerWord(t[2]) then
      match ParseU16(t[0])
      case Some(v) => SetSignal(t[2], v as bv16)
      case None => Rejected
    else if |t| == 3 && IsLowerWord(t[0]) && t[1] == "->" && IsLowerWord(t[2]) then
      Connect(Relay(WireIn(t[0]), t[2]))
    else if |t| == 4 && t[0] == "NOT" && IsLowerWord(t[1]) && t[2] == "->" && IsLowerWord(t[3]) then
      Connect(Not(WireIn(t[1]), t[3]))
    else if |t| == 5 && (IsLowerWord(t[0]) || IsDigits(t[0])) && t[1] == "AND"
         && IsLowerWord(t[2]) && t[3] == "->" && IsLowerWord(t[4]) then
      Connect(And(AndLeftOperand(t[0]), WireIn(t[2]), t[4]))
    else if |t| == 5 && IsLowerWord(t[0]) && t[1] == "OR"
         && IsLowerWord(t[2]) && t[3] == "->" && IsLowerWord(t[4]) then
      Connect(Or(WireIn(t[0]), WireIn(t[2]), t[4]))
    else if |t| == 5 && IsLowerWord(t[0]) && (t[1] == "LSHIFT" || t[1] == "RSHIFT")
         && IsDigits(t[2]) && t[3] == "->" && IsLowerWord(t[4]) then
      match ParseU16(t[2])
      case Some(f) =>
        Connect(if t[1] == "LSHIFT" then LShift(WireIn(t[0]), f, t[4]) else RShift(WireIn(t[0]), f, t[4]))
      case None => Rejected
    else
      Rejected
  }

  /** The tag `process_instruction` returns for a parsed line. */
  function Tag(ins: Instruction): (p: Process)
    ensures p == Error <==> ins.Rejected?
  {
    match ins
    case SetSignal(_, _) => InputLine
    case Rejected => Error
    case Connect(g) =>
      match g
      case Relay(_, _) => RelayLine
      case Not(_, _) => NotLine
      case And(_, _, _) => AndLine
      case Or(_, _, _) => OrLine
      case LShift(_, _, _) => LShiftLine
      case RShift(_, _, _) => RShiftLine
  }

  /** A line of tokens `a b c` (tokens free of spaces) splits back into those tokens. */
  lemma Tokens3(a: string, b: string, c: string)
    requires ' ' !in a && ' ' !in b && ' ' !in c
    ensures Split(a + " " + b + " " + c, ' ') == [a, b, c]
  {
    SplitNoSeparator(a, ' ');
    SplitNoSeparator(b, ' ');
    SplitNoSeparator(c, ' ');
    SplitAppend(a, ' ', b);
    SplitAppend(a + " " + b, ' ', c);
  }

  lemma Tokens4(a: string, b: string, c: string, d: string)
    requires ' ' !in a && ' ' !in b && ' ' !in c && ' ' !in d
    ensures Split(a + " " + b + " " + c + " " + d, ' ') == [a, b, c, d]
  {
    Tokens3(a, b, c);
    SplitNoSeparator(d, ' ');
    SplitAppend(a + " " + b + " " + c, ' ', d);
  }

  lemma Tokens5(a: string, b: string, c: string, d: string, e: string)
    requires ' ' !in a && ' ' !in b && ' ' !in c && ' ' !in d && ' ' !in e
    ensures Split(a + " " + b + " " + c + " " + d + " " + e, ' ') == [a, b, c, d, e]
  {
    Tokens4(a, b, c, d);
    SplitNoSeparator(e, ' ');
    SplitAppend(a + " " + b + " " + c + " " + d, ' ', e);
  }

  lemma NoSpaceInWord(s: string)
    requires IsLowerWord(s) || IsDigits(s)
    ensures ' ' !in s
  {
    forall i | 0 <= i < |s| ensures s[i] != ' ' {
      assert IsLowerLetter(s[i]) || IsDigit(s[i]);
    }
  }

  /** `N -> w` sets w to N when N fits in 16 bits; a larger N rejects the line. */
  lemma ParseLiteralLine(n: string, w: string)
    requires IsDigits(n) && IsLowerWord(w)
    ensures ParseInstruction(n + " -> " + w)
         == if DecimalValue(n) <= 0xFFFF then SetSignal(w, DecimalValue(n) as bv16) else Rejected
  {
    NoSpaceInWord(n);
    NoSpaceInWord(w);
    assert n + " -> " + w == n + " " + "->" + " " + w;
    Tokens3(n, "->", w);
    LiteralTokens(n + " -> " + w, n, w);
  }

  lemma LiteralTokens(line: string, n: string, w: string)
    requires IsDigits(n) && IsLowerWord(w) && Split(line, ' ') == [n, "->", w]
    ensures ParseInstruction(line)
         == if DecimalValue(n) <= 0xFFFF then SetSignal(w, DecimalValue(n) as bv16) else Rejected
  {
    var t := Split(line, ' ');
    assert |t| == 3 && IsDigits(t[0]) && t[1] == "->" && IsLowerWord(t[2]);
    assert n[0] != '+' by { assert IsDigit(n[0]); }
    if DecimalValue(n) <= 0xFFFF {
      assert ParseU16(n) == Some(DecimalValue(n));
    } else {
      assert ParseU16(n) == None;
    }
  }

  /** `x -> w` adds a relay from x to w. */
  lemma ParseRelayLine(x: string, w: string)
    requires IsLowerWord(x) && IsLowerWord(w)
    ensures ParseInstruction(x + " -> " + w) == Connect(Relay(WireIn(x), w))
  {
    NoSpaceInWord(x);
    NoSpaceInWord(w);
    assert x + " -> " + w == x + " " + "->" + " " + w;
    Tokens3(x, "->", w);
    assert !IsDigits(x) by { assert !IsDigit(x[0]); }
  }

  /** `NOT x -> w` adds a NOT gate. */
  lemma ParseNotLine(x: string, w: string)
    requires IsLowerWord(x) && IsLowerWord(w)
    ensures ParseInstruction("NOT " + x + " -> " + w) == Connect(Not(WireIn(x), w))
  {
    NoSpaceInWord(x);
    NoSpaceInWord(w);
    assert "NOT " + x + " -> " + w == "NOT" + " " + x + " " + "->" + " " + w;
    Tokens4("NOT", x, "->", w);
  }

  /** `p AND y -> w` adds an AND gate whose left operand p may be a wire or a number. */
  lemma ParseAndLine(p: string, y: string, w: string)
    requires (IsLowerWord(p) || IsDigits(p)) && IsLowerWord(y) && IsLowerWord(w)
    ensures ParseInstruction(p + " AND " + y + " -> " + w) == Connect(And(AndLeftOperand(p), WireIn(y), w))
  {
    NoSpaceInWord(p);
    NoSpaceInWord(y);
    NoSpaceInWord(w);
    assert p + " AND " + y + " -> " + w == p + " " + "AND" + " " + y + " " + "->" + " " + w;
    Tokens5(p, "AND", y, "->", w);
  }

  /** `x OR y -> w` adds an OR gate. */
  lemma ParseOrLine(x: string, y: string, w: string)
    requires IsLowerWord(x) && IsLowerWord(y) && IsLowerWord(w)
    ensures ParseInstruction(x + " OR " + y + " -> " + w) == Connect(Or(WireIn(x), WireIn(y), w))
  {
    NoSpaceInWord(x);
    NoSpaceInWord(y);
    NoSpaceInWord(w);
    assert x + " OR " + y + " -> " + w == x + " " + "OR" + " " + y + " " + "->" + " " + w;
    Tokens5(x, "OR", y, "->", w);
    assert !IsDigits(x) by { assert !IsDigit(x[0]); }
  }

  /** `x LSHIFT n -> w` and `x RSHIFT n -> w` add a shift when n fits in 16 bits, and reject the line otherwise. */
  lemma ParseShiftLine(x: string, dir: string, n: string, w: string)
    requires IsLowerWord(x) && (dir == "LSHIFT" || dir == "RSHIFT") && IsDigits(n) && IsLowerWord(w)
    ensures ParseInstruction(x + " " + dir + " " + n + " -> " + w)
         == if DecimalValue(n) > 0xFFFF then Rejected
            else if dir == "LSHIFT" then Connect(LShift(WireIn(x), DecimalValue(n), w))
            else Connect(RShift(WireIn(x), DecimalValue(n), w))
  {
    NoSpaceInWord(x);
    NoSpaceInWord(n);
    NoSpaceInWord(w);
    assert ' ' !in dir;
    assert x + " " + dir + " " + n + " -> " + w == x + " " + dir + " " + n + " " + "->" + " " + w;
    Tokens5(x, dir, n, "->", w);
    assert !IsDigits(x) by { assert !IsDigit(x[0]); }
  }

  /** A line that matches no form, the empty line among them, is rejected. */
  lemma ParseEmptyLine()
    ensures ParseInstruction("") == Rejected
  {
    assert Split("", ' ') == [""];
  }

  // ---------------------------------------------------------------------
  // Gate semantics
  // ---------------------------------------------------------------------

  /** NOT on 16 bits: the bitwise complement, not a logical negation. */
  function Complement(x: bv16): bv16 { !x }

  function BitAnd(x: bv16, y: bv16): bv16 { x & y }

  function BitOr(x: bv16, y: bv16): bv16 { x | y }

  /** LSHIFT within a 16-bit register: bits shifted out are dropped, zeros come in. */
  function ShiftLeft(x: bv16, f: nat): bv16
    requires f < 16
  {
    x << f
  }

  /** RSHIFT within a 16-bit register: bits shifted out are dropped, zeros come in. */
  function ShiftRight(x: bv16, f: nat): bv16
    requires f < 16
  {
    x >> f
  }

  /** The effect of visiting one gate during a sweep. */
  datatype Step = Write(wire: string, value: bv16) | Skip | Abort(error: EvaluateError) | Panic

  /** The wires a gate reads, each of which must hold a signal before the gate fires. */
  function WireOperands(g: Gate): set<string>
  {
    match g
    case Relay(input, _) => if input.WireIn? then {input.name} else {}
    case Not(input, _) => if input.WireIn? then {input.name} else {}
    case And(a, b, _) => (if a.WireIn? then {a.name} else {}) + (if b.WireIn? then {b.name} else {})
    case Or(a, b, _) => (if a.WireIn? then {a.name} else {}) + (if b.WireIn? then {b.name} else {})
    case LShift(input, _, _) => if input.WireIn? then {input.name} else {}
    case RShift(input, _, _) => if input.WireIn? then {input.name} else {}
  }

  /** Every wire the gate reads is present and holds a signal. */
  predicate InputsKnown(g: Gate, w: map<string, Wire>)
  {
    forall x :: x in WireOperands(g) ==> x in w && w[x].Signal?
  }

  /**
   * Visiting gate `g` with wire map `w`, as one arm of the evaluator's match:
   * a constant in a wire-only slot aborts with that slot's tag; a missing
   * wire behind an `unwrap` (the operands of AND, OR and the shifts) or a
   * shift factor of 16 or more panics; a missing or unknown input of a relay
   * or NOT skips the gate; otherwise the gate writes its output. So a visit
   * aborts exactly when the gate is malformed, with its tag, and a gate
   * writes only its own output and only when all its inputs are known.
   */
  function Fire(g: Gate, w: map<string, Wire>): (st: Step)
    ensures st.Abort? <==> Malformed(g).Some?
    ensures st.Abort? ==> st.error == Malformed(g).value
    ensures st.Write? ==> st.wire == g.output && InputsKnown(g, w)
  {
    match g
    case Relay(input, out) =>
      if input.SignalIn? then Abort(NotInputError)
      else if input.name in w && w[input.name].Signal? then Write(out, w[input.name].value)
      else Skip
    case Not(input, out) =>
      if input.SignalIn? then Abort(NotInputError)
      else if input.name in w && w[input.name].Signal? then Write(out, Complement(w[input.name].value))
      else Skip
    case And(a, b, out) =>
      if b.SignalIn? then Abort(AndInputBError)
      else if a.WireIn? && a.name !in w then Panic
      else if b.name !in w then Panic
      else
        var va := if a.SignalIn? then Signal(a.value) else w[a.name];
        var vb := w[b.name];
        if va.Signal? && vb.Signal? then Write(out, BitAnd(va.value, vb.value)) else Skip
    case Or(a, b, out) =>
      if a.SignalIn? then Abort(OrInputAError)
      else if b.SignalIn? then Abort(OrInputBError)
      else if a.name !in w || b.name !in w then Panic
      else if w[a.name].Signal? && w[b.name].Signal? then Write(out, BitOr(w[a.name].value, w[b.name].value))
      else Skip
    case LShift(input, f, out) =>
      if input.SignalIn? then Abort(ShiftInputError)
      else if input.name !in w then Panic
      else if w[input.name].Unknown? then Skip
      else if f >= 16 then Panic
      else Write(out, ShiftLeft(w[input.name].value, f))
    case RShift(input, f, out) =>
      if input.SignalIn? then Abort(ShiftInputError)
      else if input.name !in w then Panic
      else if w[input.name].Unknown? then Skip
      else if f >= 16 then Panic
      else Write(out, ShiftRight(w[input.name].value, f))
  }

  /** A gate whose inputs are all known and whose shift factor is below 16 fires: it neither skips nor panics. */
  lemma {:induction false} KnownInputsFire(g: Gate, w: map<string, Wire>)
    requires Malformed(g).None? && InputsKnown(g, w)
    requires (g.LShift? || g.RShift?) ==> g.factor < 16
    ensures Fire(g, w).Write?
  {
    match g
    case Relay(input, _) => assert input.name in WireOperands(g);
    case Not(input, _) => assert input.name in WireOperands(g);
    case And(a, b, _) =>
      assert b.name in WireOperands(g);
      if a.WireIn? { assert a.name in WireOperands(g); }
    case Or(a, b, _) =>
      assert a.name in WireOperands(g);
      assert b.name in WireOperands(g);
    case LShift(input, _, _) => assert input.name in WireOperands(g);
    case RShift(input, _, _) => assert input.name in WireOperands(g);
  }

  /** NOT is the 16-bit complement: it maps v to 65535 - v. */
  lemma NotIsComplement(v: bv16)
    ensures Complement(v) == 0xFFFF - v
  {
  }

  /** LSHIFT by f multiplies by 2^f and keeps the low 16 bits: the bits shifted out are dropped. */
  lemma LShiftDropsHighBits(v: bv16, f: nat)
    requires f < 16
    ensures ShiftLeft(v, f) == v * (1 << f)
  {
  }

  // ---------------------------------------------------------------------
  // The circuit store: outputs and reset
  // ---------------------------------------------------------------------

  /** The wires driven by some gate of `gates`. */
  function Outputs(gates: seq<Gate>): set<string>
  {
    set g | g in gates :: g.output
  }

  /**
   * `reset_all_wires_expect_inputs`: each gate's output, in list order, is
   * set to Unknown (inserted when absent); every other wire keeps its state.
   */
  function ResetOutputs(w: map<string, Wire>, gates: seq<Gate>): (r: map<string, Wire>)
    ensures r.Keys == w.Keys + Outputs(gates)
    ensures forall k :: k in Outputs(gates) ==> r[k] == Unknown
    ensures forall k :: k in w && k !in Outputs(gates) ==> r[k] == w[k]
  {
    if |gates| == 0 then w
    else
      var prefix := gates[..|gates| - 1];
      assert gates == prefix + [gates[|gates| - 1]];
      assert Outputs(gates) == Outputs(prefix) + {gates[|gates| - 1].output};
      ResetOutputs(w, prefix)[gates[|gates| - 1].output := Unknown]
  }

  /** Resetting twice is resetting once. */
  lemma ResetIdempotent(w: map<string, Wire>, gates: seq<Gate>)
    ensures ResetOutputs(ResetOutputs(w, gates), gates) == ResetOutputs(w, gates)
  {
  }

  /** The wires whose state is Unknown. */
  function UnknownWires(w: map<string, Wire>): set<string>
  {
    set k | k in w && w[k].Unknown?
  }

  /** The number of Unknown wires, which the evaluator checks after each sweep. */
  function CountUnknown(w: map<string, Wire>): nat
  {
    |UnknownWires(w)|
  }

  // ---------------------------------------------------------------------
  // Sweeps
  // ---------------------------------------------------------------------

  /** The wire map after a step: a write stores its signal, anything else changes nothing. */
  function Apply(step: Step, w: map<string, Wire>): map<string, Wire>
  {
    if step.Write? then w[step.wire := Signal(step.value)] else w
  }

  /** Whether a sweep goes on to the next gate, returned an error tag, or panicked. */
  datatype SweepStatus = Running | Aborting(error: EvaluateError) | Panicking

  datatype SweepState = SweepState(wires: map<string, Wire>, status: SweepStatus)

  /** The state after visiting the first `n` gates of one sweep that starts from `w`. */
  function SweepPrefix(gates: seq<Gate>, n: nat, w: map<string, Wire>): SweepState
    requires n <= |gates|
  {
    if n == 0 then SweepState(w, Running)
    else
      var s := SweepPrefix(gates, n - 1, w);
      if !s.status.Running? then s
      else
        match Fire(gates[n - 1], s.wires)
        case Write(o, v) => SweepState(s.wires[o := Signal(v)], Running)
        case Skip => s
        case Abort(e) => SweepState(s.wires, Aborting(e))
        case Panic => SweepState(s.wires, Panicking)
  }

  /** The result of the whole evaluation: it returned, it panicked, or it is still sweeping when the fuel runs out. */
  datatype Evaluation =
    | Returned(result: Outcome<EvaluateError>, wires: map<string, Wire>)
    | Panics
    | StillSweeping(wires: map<string, Wire>)

  /**
   * At most `fuel` sweeps from `w`: after a sweep that neither aborted nor
   * panicked, the evaluation returns when no wire is Unknown and sweeps
   * again otherwise. The source has no other exit: a circuit that never
   * resolves keeps sweeping for ever, which appears here as `StillSweeping`
   * for every fuel.
   */
  function Sweeps(gates: seq<Gate>, w: map<string, Wire>, fuel: nat): Evaluation
    decreases fuel
  {
    if fuel == 0 then StillSweeping(w)
    else
      var s := SweepPrefix(gates, |gates|, w);
      match s.status
      case Aborting(e) => Returned(Fail(e), s.wires)
      case Panicking => Panics
      case Running =>
        if CountUnknown(s.wires) == 0 then Returned(Pass, s.wires) else Sweeps(gates, s.wires, fuel - 1)
  }

  /** `evaluate_circuit` from wire map `w`: reset the gate outputs, then sweep. */
  function Evaluate(w: map<string, Wire>, gates: seq<Gate>, fuel: nat): (e: Evaluation)
    ensures e.Returned? && e.result.Pass? ==> CountUnknown(e.wires) == 0
    ensures fuel == 0 ==> e.StillSweeping?
  {
    PassLeavesNoUnknown(gates, ResetOutputs(w, gates), fuel);
    Sweeps(gates, ResetOutputs(w, gates), fuel)
  }

  /** Once a sweep has stopped, later gates change nothing. */
  lemma {:induction false} StoppedStaysStopped(gates: seq<Gate>, i: nat, n: nat, w: map<string, Wire>)
    requires i <= n <= |gates|
    requires !SweepPrefix(gates, i, w).status.Running?
    ensures SweepPrefix(gates, n, w) == SweepPrefix(gates, i, w)
    decreases n
  {
    if n > i {
      StoppedStaysStopped(gates, i, n - 1, w);
    }
  }

  /** A gate that panics while the sweep is running makes the whole evaluation panic. */
  lemma PanicPropagates(gates: seq<Gate>, i: nat, w: map<string, Wire>, fuel: nat)
    requires i < |gates| && fuel >= 1
    requires SweepPrefix(gates, i, w).status.Running?
    requires Fire(gates[i], SweepPrefix(gates, i, w).wires) == Panic
    ensures Sweeps(gates, w, fuel) == Panics
  {
    StoppedStaysStopped(gates, i + 1, |gates|, w);
  }

  /**
   * Within a sweep a wire is only ever written with a signal: every wire
   * keeps its key, a signal stays a signal, and a wire that was not there
   * is added only as a gate output holding a signal.
   */
  lemma {:induction false} SweepPrefixMonotone(gates: seq<Gate>, n: nat, w: map<string, Wire>)
    requires n <= |gates|
    ensures w.Keys <= SweepPrefix(gates, n, w).wires.Keys <= w.Keys + Outputs(gates)
    ensures UnknownWires(SweepPrefix(gates, n, w).wires) <= UnknownWires(w)
    ensures forall k :: k in w && w[k].Signal? ==> SweepPrefix(gates, n, w).wires[k].Signal?
    ensures forall k :: k in w && k !in Outputs(gates) ==> SweepPrefix(gates, n, w).wires[k] == w[k]
    decreases n
  {
    if n > 0 {
      SweepPrefixMonotone(gates, n - 1, w);
      var s := SweepPrefix(gates, n - 1, w);
      if s.status.Running? {
        var step := Fire(gates[n - 1], s.wires);
        if step.Write? {
          assert gates[n - 1].output in Outputs(gates);
          var t := s.wires[step.wire := Signal(step.value)];
          assert UnknownWires(t) <= UnknownWires(s.wires);
        }
      }
    }
  }

  /** Sweeping never makes a wire Unknown, so the number of Unknown wires never grows. */
  lemma {:induction false} SweepsMonotone(gates: seq<Gate>, w: map<string, Wire>, fuel: nat)
    requires !Sweeps(gates, w, fuel).Panics?
    ensures w.Keys <= Sweeps(gates, w, fuel).wires.Keys
    ensures UnknownWires(Sweeps(gates, w, fuel).wires) <= UnknownWires(w)
    ensures CountUnknown(Sweeps(gates, w, fuel).wires) <= CountUnknown(w)
    ensures forall k :: k in w && w[k].Signal? ==> Sweeps(gates, w, fuel).wires[k].Signal?
    ensures forall k :: k in w && k !in Outputs(gates) ==> Sweeps(gates, w, fuel).wires[k] == w[k]
    ensures Sweeps(gates, w, fuel).wires.Keys <= w.Keys + Outputs(gates)
    decreases fuel
  {
    if fuel > 0 {
      SweepPrefixMonotone(gates, |gates|, w);
      var s := SweepPrefix(gates, |gates|, w);
      if s.status.Running? && CountUnknown(s.wires) != 0 {
        SweepsMonotone(gates, s.wires, fuel - 1);
      }
    }
    var r := Sweeps(gates, w, fuel).wires;
    assert UnknownWires(r) <= UnknownWires(w);
    SubsetCard(UnknownWires(r), UnknownWires(w));
  }

  lemma SubsetCard(a: set<string>, b: set<string>)
    requires a <= b
    ensures |a| <= |b|
  {
    assert b == a + (b - a);
  }

  /** The evaluation returns success only when no wire in the map is Unknown. */
  lemma {:induction false} PassMeansAllKnown(gates: seq<Gate>, w: map<string, Wire>, fuel: nat)
    requires Sweeps(gates, w, fuel).Returned? && Sweeps(gates, w, fuel).result == Pass
    ensures forall k :: k in Sweeps(gates, w, fuel).wires ==> Sweeps(gates, w, fuel).wires[k].Signal?
    decreases fuel
  {
    var s := SweepPrefix(gates, |gates|, w);
    if s.status.Running? && CountUnknown(s.wires) != 0 {
      PassMeansAllKnown(gates, s.wires, fuel - 1);
    } else {
      var r := s.wires;
      assert UnknownWires(r) == {};
      forall k | k in r ensures r[k].Signal? {
        assert k !in UnknownWires(r);
      }
    }
  }

  /** Hence a successful evaluation counts no Unknown wire. */
  lemma PassLeavesNoUnknown(gates: seq<Gate>, w: map<string, Wire>, fuel: nat)
    ensures Sweeps(gates, w, fuel).Returned? && Sweeps(gates, w, fuel).result == Pass
        ==> CountUnknown(Sweeps(gates, w, fuel).wires) == 0
  {
    var e := Sweeps(gates, w, fuel);
    if e.Returned? && e.result == Pass {
      PassMeansAllKnown(gates, w, fuel);
      assert UnknownWires(e.wires) == {};
    }
  }

  /** More fuel does not change an evaluation that has already ended. */
  lemma {:induction false} MoreFuel(gates: seq<Gate>, w: map<string, Wire>, fuel: nat, more: nat)
    requires fuel <= more
    requires !Sweeps(gates, w, fuel).StillSweeping?
    ensures Sweeps(gates, w, more) == Sweeps(gates, w, fuel)
    decreases fuel
  {
    var s := SweepPrefix(gates, |gates|, w);
    if s.status.Running? && CountUnknown(s.wires) != 0 {
      MoreFuel(gates, s.wires, fuel - 1, more - 1);
    }
  }

  /**
   * A constant in a wire-only slot ends the evaluation in its first sweep
   * with that slot's tag, once the sweep reaches the gate: the gates before
   * it are well formed and did not panic.
   */
  lemma FirstMalformedAborts(gates: seq<Gate>, j: nat, w: map<string, Wire>, fuel: nat)
    requires j < |gates| && fuel >= 1
    requires Malformed(gates[j]).Some?
    requires SweepPrefix(gates, j, w).status.Running?
    ensures Sweeps(gates, w, fuel) == Returned(Fail(Malformed(gates[j]).value), SweepPrefix(gates, j, w).wires)
  {
    StoppedStaysStopped(gates, j + 1, |gates|, w);
  }

  /** The gates a parser produces never trigger the malformed-operand errors. */
  lemma {:induction false} ParsedGatesNeverAbort(gates: seq<Gate>, n: nat, w: map<string, Wire>)
    requires n <= |gates|
    requires forall i :: 0 <= i < |gates| ==> Malformed(gates[i]).None?
    ensures !SweepPrefix(gates, n, w).status.Aborting?
    decreases n
  {
    if n > 0 {
      ParsedGatesNeverAbort(gates, n - 1, w);
    }
  }

  // ---------------------------------------------------------------------
  // Termination for acyclic circuits whose inputs are all defined
  // ---------------------------------------------------------------------

  /** A gate that never aborts or panics on a map with keys `keys`. */
  predicate SafeGate(g: Gate, keys: set<string>)
  {
    && Malformed(g).None?
    && WireOperands(g) <= keys
    && ((g.LShift? || g.RShift?) ==> g.factor < 16)
  }

  /** Every operand of `g` that some gate drives has a rank below `r`. */
  predicate OperandsBelow(g: Gate, gates: seq<Gate>, rank: string -> nat, r: nat)
  {
    forall x :: x in WireOperands(g) && x in Outputs(gates) ==> rank(x) < r
  }

  /**
   * The reset map `w` and the gate list describe an acyclic circuit with all
   * inputs defined, as witnessed by `rank`: no gate can abort or panic, every
   * wire no gate drives holds a signal, and every driven wire has a driving
   * gate whose driven operands all have lower rank.
   */
  predicate Ranked(w: map<string, Wire>, gates: seq<Gate>, rank: string -> nat)
  {
    && Outputs(gates) <= w.Keys
    && (forall i :: 0 <= i < |gates| ==> SafeGate(gates[i], w.Keys))
    && (forall k :: k in w && k !in Outputs(gates) ==> w[k].Signal?)
    && (forall k :: k in Outputs(gates) ==>
          exists i :: 0 <= i < |gates| && gates[i].output == k && OperandsBelow(gates[i], gates, rank, rank(k)))
  }

  lemma SafeGateFires(g: Gate, w: map<string, Wire>)
    requires SafeGate(g, w.Keys)
    ensures Fire(g, w) != Panic && !Fire(g, w).Abort?
  {
    match g
    case Relay(_, _) =>
    case Not(_, _) =>
    case And(a, b, _) =>
      assert b.name in WireOperands(g);
      if a.WireIn? { assert a.name in WireOperands(g); }
    case Or(a, b, _) =>
      assert a.name in WireOperands(g);
      assert b.name in WireOperands(g);
    case LShift(input, _, _) => assert input.name in WireOperands(g);
    case RShift(input, _, _) => assert input.name in WireOperands(g);
  }

  /** A sweep over safe gates whose outputs are all in the map keeps running and keeps the keys. */
  lemma {:induction false} SafeSweepRuns(gates: seq<Gate>, n: nat, w: map<string, Wire>)
    requires n <= |gates|
    requires Outputs(gates) <= w.Keys
    requires forall i :: 0 <= i < |gates| ==> SafeGate(gates[i], w.Keys)
    ensures SweepPrefix(gates, n, w).status.Running?
    ensures SweepPrefix(gates, n, w).wires.Keys == w.Keys
    decreases n
  {
    if n > 0 {
      SafeSweepRuns(gates, n - 1, w);
      var s := SweepPrefix(gates, n - 1, w);
      SafeGateFires(gates[n - 1], s.wires);
      assert gates[n - 1] in gates;
    }
  }

  /** A signal present after `a` gates of a sweep is still a signal after `b >= a` gates. */
  lemma {:induction false} PrefixKeepsSignals(gates: seq<Gate>, a: nat, b: nat, w: map<string, Wire>, k: string)
    requires a <= b <= |gates|
    requires k in SweepPrefix(gates, a, w).wires && SweepPrefix(gates, a, w).wires[k].Signal?
    ensures k in SweepPrefix(gates, b, w).wires && SweepPrefix(gates, b, w).wires[k].Signal?
    decreases b
  {
    if b > a {
      PrefixKeepsSignals(gates, a, b - 1, w, k);
    }
  }

  /**
   * One sweep resolves one more rank: if every driven wire of rank below
   * `done` holds a signal before the sweep, every driven wire of rank below
   * `done + 1` holds one after it.
   */
  lemma SweepResolvesRank(gates: seq<Gate>, w: map<string, Wire>, rank: string -> nat, done: nat)
    requires Ranked(w, gates, rank)
    requires forall k :: k in Outputs(gates) && rank(k) < done ==> w[k].Signal?
    ensures SweepPrefix(gates, |gates|, w).status.Running?
    ensures Ranked(SweepPrefix(gates, |gates|, w).wires, gates, rank)
    ensures forall k :: k in Outputs(gates) && rank(k) < done + 1 ==> SweepPrefix(gates, |gates|, w).wires[k].Signal?
  {
    SafeSweepRuns(gates, |gates|, w);
    SweepPrefixMonotone(gates, |gates|, w);
    var r := SweepPrefix(gates, |gates|, w).wires;
    forall k | k in Outputs(gates) && rank(k) < done + 1
      ensures r[k].Signal?
    {
      if rank(k) < done {
      } else {
        var i :| 0 <= i < |gates| && gates[i].output == k && OperandsBelow(gates[i], gates, rank, rank(k));
        SafeSweepRuns(gates, i, w);
        SweepPrefixMonotone(gates, i, w);
        var before := SweepPrefix(gates, i, w).wires;
        assert InputsKnown(gates[i], before) by {
          forall x | x in WireOperands(gates[i]) ensures x in before && before[x].Signal? {
            assert SafeGate(gates[i], w.Keys);
          }
        }
        KnownInputsFire(gates[i], before);
        PrefixKeepsSignals(gates, i + 1, |gates|, w, k);
      }
    }
    assert Ranked(r, gates, rank) by {
      forall k | k in r && k !in Outputs(gates) ensures r[k].Signal? {
      }
    }
  }

  /**
   * An acyclic circuit with all inputs defined finishes: if every rank is
   * below `done + n`, at most `n` further sweeps (at least one) end the
   * evaluation with success.
   */
  lemma {:induction false} RankedSweepsPass(gates: seq<Gate>, w: map<string, Wire>, rank: string -> nat, done: nat, n: nat)
    requires n >= 1
    requires Ranked(w, gates, rank)
    requires forall k :: k in Outputs(gates) && rank(k) < done ==> w[k].Signal?
    requires forall k :: k in Outputs(gates) ==> rank(k) < done + n
    ensures Sweeps(gates, w, n).Returned? && Sweeps(gates, w, n).result == Pass
    decreases n
  {
    SweepResolvesRank(gates, w, rank, done);
    var r := SweepPrefix(gates, |gates|, w).wires;
    if n == 1 {
      RankedResolved(r, gates, rank, done + 1);
    } else if CountUnknown(r) != 0 {
      RankedSweepsPass(gates, r, rank, done + 1, n - 1);
    }
    SweepThenPass(gates, w, n);
  }

  /** A sweep that runs through ends the evaluation if it leaves no wire Unknown, and otherwise sweeps again. */
  lemma SweepsStep(gates: seq<Gate>, w: map<string, Wire>, fuel: nat)
    requires SweepPrefix(gates, |gates|, w).status.Running? && !Sweeps(gates, w, fuel).StillSweeping?
    ensures fuel > 0
    ensures var r := SweepPrefix(gates, |gates|, w).wires;
      Sweeps(gates, w, fuel) == if CountUnknown(r) == 0 then Returned(Pass, r) else Sweeps(gates, r, fuel - 1)
  {
  }

  /** A sweep that runs through passes if it leaves no wire Unknown, or if the sweeps after it pass. */
  lemma SweepThenPass(gates: seq<Gate>, w: map<string, Wire>, n: nat)
    requires n >= 1 && SweepPrefix(gates, |gates|, w).status.Running?
    requires var r := SweepPrefix(gates, |gates|, w).wires;
      CountUnknown(r) == 0 || (n > 1 && Sweeps(gates, r, n - 1).Returned? && Sweeps(gates, r, n - 1).result == Pass)
    ensures Sweeps(gates, w, n).Returned? && Sweeps(gates, w, n).result == Pass
  {
  }

  /** Once every rank is resolved, no wire is left Unknown. */
  lemma RankedResolved(r: map<string, Wire>, gates: seq<Gate>, rank: string -> nat, bound: nat)
    requires Ranked(r, gates, rank)
    requires forall k :: k in Outputs(gates) ==> rank(k) < bound
    requires forall k :: k in Outputs(gates) && rank(k) < bound ==> r[k].Signal?
    ensures CountUnknown(r) == 0
  {
    assert UnknownWires(r) == {} by {
      forall k | k in r ensures r[k].Signal? {
      }
    }
  }

  /**
   * The sweep evaluator succeeds on any acyclic circuit whose inputs are all
   * defined, whatever the order of its gates, within one more sweep than the
   * largest rank.
   */
  lemma RankedCircuitPasses(w: map<string, Wire>, gates: seq<Gate>, rank: string -> nat, n: nat)
    requires Ranked(ResetOutputs(w, gates), gates, rank)
    requires n >= 1 && forall k :: k in Outputs(gates) ==> rank(k) < n
    ensures Evaluate(w, gates, n).Returned? && Evaluate(w, gates, n).result == Pass
  {
    RankedSweepsPass(gates, ResetOutputs(w, gates), rank, 0, n);
  }

  // ---------------------------------------------------------------------
  // The kit
  // ---------------------------------------------------------------------

  /** `WiresKit`: the wire map and the gate list, both updated in place. */
  class WiresKit {
    var wire: map<string, Wire>
    var connections: seq<Gate>

    /** `WiresKit::new`: no wires, no gates. */
    constructor ()
      ensures wire == map[] && connections == []
    {
      wire := map[];
      connections := [];
    }

    /**
     * `process_instruction`: a literal line sets its wire (overwriting any
     * old state) and adds no gate; a gate line appends exactly one gate and
     * leaves the wires alone; a rejected line changes nothing.
     */
    method ProcessInstruction(s: string) returns (p: Process)
      modifies this
      ensures p == Tag(ParseInstruction(s))
      ensures ParseInstruction(s).SetSignal? ==>
        var ins := ParseInstruction(s);
        wire == old(wire)[ins.wire := Signal(ins.value)] && connections == old(connections)
      ensures ParseInstruction(s).Connect? ==>
        wire == old(wire) && connections == old(connections) + [ParseInstruction(s).gate]
      ensures p == Error ==> wire == old(wire) && connections == old(connections)
    {
      var ins := ParseInstruction(s);
      match ins {
        case SetSignal(w, v) =>
          wire := wire[w := Signal(v)];
        case Connect(g) =>
          connections := connections + [g];
        case Rejected =>
      }
      p := Tag(ins);
    }

    /** `reset_all_wires_expect_inputs`. */
    method ResetAllWiresExceptInputs()
      modifies this`wire
      ensures wire == ResetOutputs(old(wire), connections)
    {
      var i := 0;
      while i < |connections|
        invariant 0 <= i <= |connections|
        invariant wire == ResetOutputs(old(wire), connections[..i])
      {
        wire := wire[connections[i].output := Unknown];
        i := i + 1;
        assert connections[..i][..i - 1] == connections[..i - 1];
      }
      assert connections[..|connections|] == connections;
    }

    /**
     * One arm of the evaluator's match: visit gate `g`, writing its output
     * when its inputs are known, or report the tag of a malformed slot.
     * A visit that would panic is excluded by the requires.
     */
    method VisitGate(g: Gate) returns (error: Option<EvaluateError>)
      requires Fire(g, wire) != Panic
      modifies this`wire
      ensures error == (if Fire(g, old(wire)).Abort? then Some(Fire(g, old(wire)).error) else None)
      ensures wire == Apply(Fire(g, old(wire)), old(wire))
    {
      error := None;
      match g {
        case Relay(input, out) =>
          if input.SignalIn? {
            return Some(NotInputError);
          }
          if input.name in wire && wire[input.name].Signal? {
            wire := wire[out := Signal(wire[input.name].value)];
          }
        case Not(input, out) =>
          if input.SignalIn? {
            return Some(NotInputError);
          }
          if input.name in wire && wire[input.name].Signal? {
            wire := wire[out := Signal(Complement(wire[input.name].value))];
          }
        case And(a, b, out) =>
          if b.SignalIn? {
            return Some(AndInputBError);
          }
          var va := if a.SignalIn? then Signal(a.value) else wire[a.name];
          var vb := wire[b.name];
          if va.Signal? && vb.Signal? {
            wire := wire[out := Signal(BitAnd(va.value, vb.value))];
          }
        case Or(a, b, out) =>
          if a.SignalIn? {
            return Some(OrInputAError);
          }
          if b.SignalIn? {
            return Some(OrInputBError);
          }
          var va := wire[a.name];
          var vb := wire[b.name];
          if va.Signal? && vb.Signal? {
            wire := wire[out := Signal(BitOr(va.value, vb.value))];
          }
        case LShift(input, f, out) =>
          if input.SignalIn? {
            return Some(ShiftInputError);
          }
          var v := wire[input.name];
          if v.Signal? {
            wire := wire[out := Signal(ShiftLeft(v.value, f))];
          }
        case RShift(input, f, out) =>
          if input.SignalIn? {
            return Some(ShiftInputError);
          }
          var v := wire[input.name];
          if v.Signal? {
            wire := wire[out := Signal(ShiftRight(v.value, f))];
          }
      }
    }

    /**
     * One pass of the evaluator's loop over the gate list: visit each gate in
     * order, returning early with the tag of a malformed gate. An evaluation
     * that returns with `fuel` sweeps left does not panic, so no visit panics.
     */
    method SweepGates(ghost fuel: nat) returns (error: Option<EvaluateError>)
      requires Sweeps(connections, wire, fuel).Returned?
      modifies this`wire
      ensures error.None? ==> SweepPrefix(connections, |connections|, old(wire)) == SweepState(wire, Running)
      ensures error.Some? ==> Sweeps(connections, old(wire), fuel) == Returned(Fail(error.value), wire)
    {
      ghost var start := wire;
      assert fuel >= 1;
      error := None;
      var i := 0;
      while i < |connections|
        invariant 0 <= i <= |connections|
        invariant SweepPrefix(connections, i, start) == SweepState(wire, Running)
        invariant error.None?
      {
        if Fire(connections[i], wire) == Panic {
          PanicPropagates(connections, i, start, fuel);
        }
        error := VisitGate(connections[i]);
        if error.Some? {
          StoppedStaysStopped(connections, i + 1, |connections|, start);
          assert SweepPrefix(connections, |connections|, start) == SweepState(wire, Aborting(error.value));
          return;
        }
        i := i + 1;
      }
    }

    /**
     * `evaluate_circuit`: reset the gate outputs, then sweep the gate list
     * until a sweep ends with no Unknown wire, returning early with the tag
     * of a malformed gate. The ghost `sweeps` is a number of sweeps after
     * which the source's loop has exited without a panic; the requires
     * states that such a number exists, which is how the model rules out the
     * source's endless loop and its panics.
     */
    method EvaluateCircuit(ghost sweeps: nat) returns (r: Outcome<EvaluateError>)
      requires Evaluate(wire, connections, sweeps).Returned?
      modifies this`wire
      ensures Evaluate(old(wire), connections, sweeps) == Returned(r, wire)
    {
      ResetAllWiresExceptInputs();
      ghost var fuel := sweeps;
      while true
        invariant Sweeps(connections, wire, fuel) == Evaluate(old(wire), connections, sweeps)
        decreases fuel
      {
        ghost var start := wire;
        var error := SweepGates(fuel);
        if error.Some? {
          return Fail(error.value);
        }
        SweepsStep(connections, start, fuel);
        if CountUnknown(wire) == 0 {
          break;
        }
        fuel := fuel - 1;
      }
      r := Pass;
    }
  }
}

/** The sample circuit of the source's tests, parsed and evaluated. */
module WireKitExamples {
  import opened Wrappers
  import opened Text
  import opened WireKit

  lemma ParsesLiteralSample()
    ensures ParseInstruction("123 -> x") == SetSignal("x", 123)
  {
    LiteralSample("123 -> x", "123", "x");
  }

  lemma {:induction false} LiteralSample(line: string, n: string, w: string)
    requires n == "123" && w == "x" && line == n + " -> " + w
    ensures ParseInstruction(line) == SetSignal(w, 123)
  {
    assert DecimalValue(n) == 123 by {
      assert n[..2] == "12" && "12"[..1] == "1" && "1"[..0] == "";
    }
    assert IsDigits(n) && IsLowerWord(w);
    ParseLiteralLine(n, w);
  }

  lemma ParsesAndSample()
    ensures ParseInstruction("x AND y -> d") == Connect(And(WireIn("x"), WireIn("y"), "d"))
  {
    assert !IsDigits("x") by { assert "x"[0] == 'x' && !IsDigit('x'); }
    assert ParseU16("x") == None;
    assert "x AND y -> d" == "x" + " AND " + "y" + " -> " + "d";
    ParseAndLine("x", "y", "d");
  }

  lemma ParsesOrSample()
    ensures ParseInstruction("x OR y -> e") == Connect(Or(WireIn("x"), WireIn("y"), "e"))
  {
    assert "x OR y -> e" == "x" + " OR " + "y" + " -> " + "e";
    ParseOrLine("x", "y", "e");
  }

  lemma ParsesShiftSamples()
    ensures ParseInstruction("x LSHIFT 2 -> f") == Connect(LShift(WireIn("x"), 2, "f"))
    ensures ParseInstruction("y RSHIFT 2 -> g") == Connect(RShift(WireIn("y"), 2, "g"))
  {
    ParsesLeftShiftSample();
    ParsesRightShiftSample();
  }

  lemma ParsesLeftShiftSample()
    ensures ParseInstruction("x LSHIFT 2 -> f") == Connect(LShift(WireIn("x"), 2, "f"))
  {
    assert DecimalValue("2") == 2 by { assert "2"[..0] == ""; }
    assert "x LSHIFT 2 -> f" == "x" + " " + "LSHIFT" + " " + "2" + " -> " + "f";
    ParseShiftLine("x", "LSHIFT", "2", "f");
  }

  lemma ParsesRightShiftSample()
    ensures ParseInstruction("y RSHIFT 2 -> g") == Connect(RShift(WireIn("y"), 2, "g"))
  {
    assert DecimalValue("2") == 2 by { assert "2"[..0] == ""; }
    assert "y RSHIFT 2 -> g" == "y" + " " + "RSHIFT" + " " + "2" + " -> " + "g";
    ParseShiftLine("y", "RSHIFT", "2", "g");
  }

  lemma ParsesNotSample()
    ensures ParseInstruction("NOT x -> h") == Connect(Not(WireIn("x"), "h"))
  {
    assert "NOT x -> h" == "NOT " + "x" + " -> " + "h";
    ParseNotLine("x", "h");
  }

  /** The gates of the sample circuit, in the order of its lines. */
  function SampleGates(): seq<Gate>
  {
    [ And(WireIn("x"), WireIn("y"), "d"), Or(WireIn("x"), WireIn("y"), "e"),
      LShift(WireIn("x"), 2, "f"), RShift(WireIn("y"), 2, "g"),
      Not(WireIn("x"), "h"), Not(WireIn("y"), "i") ]
  }

  /** The gate values of the sample on x = 123 and y = 456. */
  lemma SampleGateValues()
    ensures BitAnd(123, 456) == 72 && BitOr(123, 456) == 507
    ensures ShiftLeft(123, 2) == 492 && ShiftRight(456, 2) == 114
    ensures Complement(123) == 65412 && Complement(456) == 65079
  {
  }

  function SampleInputs(): map<string, Wire>
  {
    map["x" := Signal(123), "y" := Signal(456)]
  }

  function SampleReset(): map<string, Wire>
  {
    map["x" := Signal(123), "y" := Signal(456), "d" := Unknown, "e" := Unknown,
        "f" := Unknown, "g" := Unknown, "h" := Unknown, "i" := Unknown]
  }

  function SampleResolved(): map<string, Wire>
  {
    map["x" := Signal(123), "y" := Signal(456), "d" := Signal(72), "e" := Signal(507),
        "f" := Signal(492), "g" := Signal(114), "h" := Signal(65412), "i" := Signal(65079)]
  }

  lemma SampleOutputs()
    ensures Outputs(SampleGates()) == {"d", "e", "f", "g", "h", "i"}
  {
    SampleOutputsOf(SampleGates());
  }

  lemma {:induction false} SampleOutputsOf(gates: seq<Gate>)
    requires gates == SampleGates()
    ensures Outputs(gates) == {"d", "e", "f", "g", "h", "i"}
  {
    SampleOutputsWithin(gates);
    SampleOutputsAll(gates);
  }

  lemma {:induction false} SampleOutputsWithin(gates: seq<Gate>)
    requires gates == SampleGates()
    ensures Outputs(gates) <= {"d", "e", "f", "g", "h", "i"}
  {
    forall k | k in Outputs(gates) ensures k in {"d", "e", "f", "g", "h", "i"} {
      var g :| g in gates && g.output == k;
    }
  }

  lemma {:induction false} SampleOutputsAll(gates: seq<Gate>)
    requires gates == SampleGates()
    ensures {"d", "e", "f", "g", "h", "i"} <= Outputs(gates)
  {
    assert gates[0].output == "d" && gates[1].output == "e" && gates[2].output == "f";
    assert gates[3].output == "g" && gates[4].output == "h" && gates[5].output == "i";
  }

  lemma SampleResets()
    ensures ResetOutputs(SampleInputs(), SampleGates()) == SampleReset()
  {
    ResetsTo(SampleInputs(), SampleGates());
  }

  lemma ResetsTo(w: map<string, Wire>, gates: seq<Gate>)
    requires w == SampleInputs() && gates == SampleGates()
    ensures ResetOutputs(w, gates) == SampleReset()
  {
    SampleOutputs();
    SampleResetMap(w, Outputs(gates), ResetOutputs(w, gates));
  }

  /** A map that has Unknown on the six sample outputs and the inputs elsewhere is the reset sample. */
  lemma SampleResetMap(w: map<string, Wire>, outputs: set<string>, r: map<string, Wire>)
    requires w == SampleInputs() && outputs == {"d", "e", "f", "g", "h", "i"}
    requires r.Keys == w.Keys + outputs
    requires forall k :: k in outputs ==> r[k] == Unknown
    requires forall k :: k in w && k !in outputs ==> r[k] == w[k]
    ensures r == SampleReset()
  {
    assert r["x"] == Signal(123) && r["y"] == Signal(456);
  }

  lemma SampleSweep()
    ensures SweepPrefix(SampleGates(), 6, SampleReset()) == SweepState(SampleResolved(), Running)
  {
    var gates := SampleGates();
    var r0 := SampleReset();
    var r1 := r0["d" := Signal(72)];
    var r2 := r1["e" := Signal(507)];
    var r3 := r2["f" := Signal(492)];
    var r4 := r3["g" := Signal(114)];
    var r5 := r4["h" := Signal(65412)];
    SampleFires(gates, r0, r1, r2, r3, r4, r5);
    SweepStep(gates, 0, r0, r0, "d", 72);
    SweepStep(gates, 1, r0, r1, "e", 507);
    SweepStep(gates, 2, r0, r2, "f", 492);
    SweepStep(gates, 3, r0, r3, "g", 114);
    SweepStep(gates, 4, r0, r4, "h", 65412);
    SweepStep(gates, 5, r0, r5, "i", 65079);
    SampleResolvedWrites(r0, r5["i" := Signal(65079)]);
  }

  /** A gate that writes moves the sweep one gate on with that wire set. */
  lemma SweepStep(gates: seq<Gate>, n: nat, w: map<string, Wire>, before: map<string, Wire>, o: string, v: bv16)
    requires n < |gates| && SweepPrefix(gates, n, w) == SweepState(before, Running)
    requires Fire(gates[n], before) == Write(o, v)
    ensures SweepPrefix(gates, n + 1, w) == SweepState(before[o := Signal(v)], Running)
  {
  }

  /** Every sample gate finds x and y set, whatever outputs were written before it. */
  lemma SampleFires(gates: seq<Gate>, r0: map<string, Wire>, r1: map<string, Wire>, r2: map<string, Wire>,
                    r3: map<string, Wire>, r4: map<string, Wire>, r5: map<string, Wire>)
    requires gates == SampleGates() && r0 == SampleReset()
    requires r1 == r0["d" := Signal(72)] && r2 == r1["e" := Signal(507)] && r3 == r2["f" := Signal(492)]
    requires r4 == r3["g" := Signal(114)] && r5 == r4["h" := Signal(65412)]
    ensures Fire(gates[0], r0) == Write("d", 72) && Fire(gates[1], r1) == Write("e", 507)
    ensures Fire(gates[2], r2) == Write("f", 492) && Fire(gates[3], r3) == Write("g", 114)
    ensures Fire(gates[4], r4) == Write("h", 65412) && Fire(gates[5], r5) == Write("i", 65079)
  {
    SampleGateValues();
    assert SampleInputsIn(r0) && SampleInputsIn(r1) && SampleInputsIn(r2);
    assert SampleInputsIn(r3) && SampleInputsIn(r4) && SampleInputsIn(r5);
    SampleFiresGate(gates, 0, r0);
    SampleFiresGate(gates, 1, r1);
    SampleFiresGate(gates, 2, r2);
    SampleFiresGate(gates, 3, r3);
    SampleFiresGate(gates, 4, r4);
    SampleFiresGate(gates, 5, r5);
  }

  /** The wires hold the sample inputs x = 123 and y = 456. */
  predicate SampleInputsIn(w: map<string, Wire>)
  {
    "x" in w && "y" in w && w["x"] == Signal(123) && w["y"] == Signal(456)
  }

  /** Each sample gate fires on the sample inputs, whatever else the wires hold. */
  lemma {:induction false} SampleFiresGate(gates: seq<Gate>, i: nat, w: map<string, Wire>)
    requires gates == SampleGates() && i < 6 && SampleInputsIn(w)
    ensures Fire(gates[i], w) == [Write("d", 72), Write("e", 507), Write("f", 492),
                                  Write("g", 114), Write("h", 65412), Write("i", 65079)][i]
  {
    SampleGateValues();
  }

  /** Writing the six outputs into the reset sample gives the resolved sample. */
  lemma SampleResolvedWrites(r0: map<string, Wire>, r6: map<string, Wire>)
    requires r0 == SampleReset()
    requires r6 == r0["d" := Signal(72)]["e" := Signal(507)]["f" := Signal(492)]["g" := Signal(114)]
                     ["h" := Signal(65412)]["i" := Signal(65079)]
    ensures r6 == SampleResolved()
  {
  }

  lemma SampleAllKnown()
    ensures CountUnknown(SampleResolved()) == 0
  {
    var r := SampleResolved();
    assert UnknownWires(r) == {} by {
      forall k | k in r ensures r[k].Signal? {}
    }
  }

  /** With x = 123 and y = 456 the sample circuit resolves in one sweep to d=72, e=507, f=492, g=114, h=65412, i=65079. */
  lemma EvaluatesSample()
    ensures Evaluate(SampleInputs(), SampleGates(), 1) == Returned(Pass, SampleResolved())
  {
    SampleResets();
    SampleSweep();
    SampleAllKnown();
  }

  /**
   * Two relays feeding each other never resolve: the evaluator has no
   * stuck detection, so it is still sweeping after any number of sweeps.
   */
  lemma {:induction false} RelayCycleNeverReturns(w: map<string, Wire>, n: nat)
    requires w == map["a" := Unknown, "b" := Unknown]
    ensures Sweeps([Relay(WireIn("a"), "b"), Relay(WireIn("b"), "a")], w, n) == StillSweeping(w)
    decreases n
  {
    var gates := [Relay(WireIn("a"), "b"), Relay(WireIn("b"), "a")];
    if n > 0 {
      assert Fire(gates[0], w) == Skip;
      assert SweepPrefix(gates, 1, w) == SweepState(w, Running);
      assert Fire(gates[1], w) == Skip;
      assert SweepPrefix(gates, 2, w) == SweepState(w, Running);
      assert "a" in UnknownWires(w);
      RelayCycleNeverReturns(w, n - 1);
    }
  }
}
