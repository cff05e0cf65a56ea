/**
 * The two-pass flow of the day 7 driver: evaluate the circuit, read wire
 * a, reset the gate outputs, pin wire b to a's value, evaluate again and
 * read a once more. File reading and printing are left out; the two
 * evaluation results and the two readings of a are returned instead.
 */
module CircuitRun {
  import opened Wrappers
  import opened WireKit

  /** The state of wire `name`, or Unknown when the map has no such wire. */
  function WireOrUnknown(w: map<string, Wire>, name: string): Wire
  {
    if name in w then w[name] else Unknown
  }

  /** What the driver reports: each pass's result and wire a's state after it. */
  datatype TwoPassReport = TwoPassReport(
    first: Outcome<EvaluateError>, firstA: Wire,
    second: Outcome<EvaluateError>, secondA: Wire)

  /** The wire map between the passes: gate outputs reset, then b overwritten with a's first value. */
  function Override(w1: map<string, Wire>, gates: seq<Gate>): map<string, Wire>
  {
    ResetOutputs(w1, gates)["b" := WireOrUnknown(w1, "a")]
  }

  /**
   * Both passes run whatever the first one returned: an error is only
   * reported. The ghost sweep counts say that neither evaluation loops for
   * ever or panics.
   */
  method RunWithOverride(kit: WiresKit, ghost sweeps1: nat, ghost sweeps2: nat) returns (report: TwoPassReport)
    requires Evaluate(kit.wire, kit.connections, sweeps1).Returned?
    requires Evaluate(Override(Evaluate(kit.wire, kit.connections, sweeps1).wires, kit.connections),
                      kit.connections, sweeps2).Returned?
    modifies kit
    ensures kit.connections == old(kit.connections)
    ensures
      var e1 := Evaluate(old(kit.wire), kit.connections, sweeps1);
      var e2 := Evaluate(Override(e1.wires, kit.connections), kit.connections, sweeps2);
      && report == TwoPassReport(e1.result, WireOrUnknown(e1.wires, "a"), e2.result, WireOrUnknown(e2.wires, "a"))
      && kit.wire == e2.wires
  {
    var first := kit.EvaluateCircuit(sweeps1);
    var a1 := if "a" in kit.wire then kit.wire["a"] else Unknown;
    kit.ResetAllWiresExceptInputs();
    kit.wire := kit.wire["b" := a1];
    var second := kit.EvaluateCircuit(sweeps2);
    var a2 := if "a" in kit.wire then kit.wire["a"] else Unknown;
    report := TwoPassReport(first, a1, second, a2);
  }

  /**
   * The driver's own reset before pinning b changes nothing: the second
   * evaluation resets the gate outputs again, so it starts exactly as if b
   * had been pinned on the first pass's final map.
   */
  lemma DriverResetIsRedundant(w1: map<string, Wire>, gates: seq<Gate>, fuel: nat)
    ensures Evaluate(Override(w1, gates), gates, fuel) == Evaluate(w1["b" := WireOrUnknown(w1, "a")], gates, fuel)
  {
    var v := WireOrUnknown(w1, "a");
    var left := ResetOutputs(ResetOutputs(w1, gates)["b" := v], gates);
    var right := ResetOutputs(w1["b" := v], gates);
    assert left.Keys == right.Keys;
    forall k | k in left ensures left[k] == right[k] {
    }
    assert left == right;
  }

  /** When no gate drives b, the pinned value survives the second pass unchanged. */
  lemma PinSurvivesWhenUndriven(w1: map<string, Wire>, gates: seq<Gate>, fuel: nat)
    requires "b" !in Outputs(gates)
    requires Evaluate(Override(w1, gates), gates, fuel).Returned?
    ensures "b" in Evaluate(Override(w1, gates), gates, fuel).wires
    ensures Evaluate(Override(w1, gates), gates, fuel).wires["b"] == WireOrUnknown(w1, "a")
  {
    var start := ResetOutputs(Override(w1, gates), gates);
    assert start["b"] == WireOrUnknown(w1, "a");
    SweepsMonotone(gates, start, fuel);
  }

  /** When some gate drives b, the second evaluation's own reset makes b Unknown again before the first sweep. */
  lemma PinLostWhenDriven(w1: map<string, Wire>, gates: seq<Gate>)
    requires "b" in Outputs(gates)
    ensures ResetOutputs(Override(w1, gates), gates)["b"] == Unknown
  {
  }

  /**
   * With a single relay from b to a and a fully resolved first pass, the
   * second pass returns success after one sweep with a equal to the value
   * pinned on b.
   */
  lemma RelayOverride(w1: map<string, Wire>, gates: seq<Gate>, fuel: nat)
    requires gates == [Relay(WireIn("b"), "a")]
    requires "a" in w1 && forall k :: k in w1 ==> w1[k].Signal?
    requires fuel >= 1
    ensures Evaluate(Override(w1, gates), gates, fuel) == Returned(Pass, w1["b" := w1["a"]])
  {
    var start := ResetOutputs(Override(w1, gates), gates);
    RelayOverrideSweep(w1, gates);
    var s := SweepPrefix(gates, 1, start);
    assert UnknownWires(s.wires) == {} by {
      forall k | k in s.wires ensures s.wires[k].Signal? {
      }
    }
    assert CountUnknown(s.wires) == 0;
    assert Sweeps(gates, start, fuel) == Returned(Pass, s.wires);
  }

  /** The one sweep of the second pass writes b's pinned value into a. */
  lemma RelayOverrideSweep(w1: map<string, Wire>, gates: seq<Gate>)
    requires gates == [Relay(WireIn("b"), "a")]
    requires "a" in w1 && w1["a"].Signal?
    ensures SweepPrefix(gates, 1, ResetOutputs(Override(w1, gates), gates)) == SweepState(w1["b" := w1["a"]], Running)
  {
    assert Outputs(gates) == {"a"} by {
      assert gates[0] in gates;
    }
    var start := ResetOutputs(Override(w1, gates), gates);
    assert start == w1["b" := w1["a"]]["a" := Unknown];
    assert start["b"] == w1["a"];
    assert Fire(gates[0], start) == Write("a", w1["a"].value);
    assert SweepPrefix(gates, 0, start) == SweepState(start, Running);
    assert start["a" := Signal(w1["a"].value)] == w1["b" := w1["a"]];
  }
}
