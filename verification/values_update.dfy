/**
 The values update of the poller, without its commit: which getters are
 called for a given inverter configuration and in which order, the fail-fast
 reading of them, the snapshot they make, and the document built from it.
 */
module ValuesUpdate {
  import opened ModbusTypes

  /** Energies are read in Wh and reported in kWh. */
  const EnergyScale: real := 0.001

  /** Below this magnitude the DC power counts as zero for the efficiency. */
  const Epsilon: real := 0.000000000001

  function Abs(x: real): real {
    if x < 0.0 then -x else x
  }

  /** `std::clamp` on integers. */
  function Clamp(x: int, lo: int, hi: int): (r: int)
    requires lo <= hi
    ensures lo <= r <= hi
    ensures lo <= x <= hi ==> r == x
    ensures x < lo ==> r == lo
    ensures hi < x ==> r == hi
  {
    if x < lo then lo else if hi < x then hi else x
  }

  /**
   Conversion efficiency in percent of the DC power; exactly zero when the
   DC power is within `Epsilon` of zero, so never infinite.
   */
  function Efficiency(acPower: real, dcPower: real): (e: real)
    ensures Abs(dcPower) > Epsilon ==> e * dcPower == acPower * 100.0
    ensures Abs(dcPower) <= Epsilon ==> e == 0.0
  {
    if Abs(dcPower) > Epsilon then acPower / dcPower * 100.0 else 0.0
  }

  // ---------------------------------------------------------------------
  // Getter gating
  // ---------------------------------------------------------------------

  predicate PhaseRead(p: PhaseId, phases: int) {
    p == PhaseA || (p == PhaseB && phases > 1) || (p == PhaseC && phases > 2)
  }

  /** Only an inverter with exactly two inputs has its second input read. */
  predicate InputRead(i: InputId, inputs: int) {
    i == InputA || (i == InputB && inputs == 2)
  }

  /**
   Whether the values update calls getter `g` on an inverter with the given
   phase count, input count and hybrid flag. The total DC power is always
   read; per-input DC energy only on a non-hybrid inverter.
   */
  predicate Called(g: Getter, phases: int, inputs: int, hybrid: bool) {
    match g
    case AcVoltage(p) => PhaseRead(p, phases)
    case AcCurrent(p) => PhaseRead(p, phases)
    case DcPower(i) => i == InputTotal || InputRead(i, inputs)
    case DcVoltage(i) => InputRead(i, inputs)
    case DcCurrent(i) => InputRead(i, inputs)
    case DcEnergy(i) => !hybrid && InputRead(i, inputs)
    case _ => true
  }

  /**
   The getters the values update calls, in the order it calls them: AC
   scalars, phase A, phase B and C when present, frequency, DC totals and
   input A, then input B.
   */
  function ValuePlan(phases: int, inputs: int, hybrid: bool): (plan: seq<Getter>)
    ensures forall g :: g in plan <==> Called(g, phases, inputs, hybrid)
  {
    [AcEnergy, AcPowerActive, AcPowerApparent, AcPowerReactive, AcPowerFactor,
     AcVoltage(PhaseA), AcCurrent(PhaseA)]
    + (if phases > 1 then [AcVoltage(PhaseB), AcCurrent(PhaseB)] else [])
    + (if phases > 2 then [AcVoltage(PhaseC), AcCurrent(PhaseC)] else [])
    + [AcFrequency, DcPower(InputTotal), DcPower(InputA), DcVoltage(InputA), DcCurrent(InputA)]
    + (if !hybrid then [DcEnergy(InputA)] else [])
    + (if inputs == 2 then
         [DcPower(InputB), DcVoltage(InputB), DcCurrent(InputB)] + (if !hybrid then [DcEnergy(InputB)] else [])
       else [])
  }

  // ---------------------------------------------------------------------
  // Fail-fast reading
  // ---------------------------------------------------------------------

  /**
   Call the getters of `plan` in order and stop at the first failure, which
   becomes the result. On success, every called getter's value is recorded.
   */
  function ReadPlan(read: Getter -> Result<real>, plan: seq<Getter>): (r: Result<map<Getter, real>>)
    ensures r.Ok? <==> forall g :: g in plan ==> read(g).Ok?
    ensures r.Ok? ==> forall g :: g in r.value <==> g in plan
    ensures r.Ok? ==> forall g :: g in r.value ==> read(g) == Ok(r.value[g])
    ensures r.Err? ==> exists i :: 0 <= i < |plan| && read(plan[i]) == Err(r.error)
                                   && forall j :: 0 <= j < i ==> read(plan[j]).Ok?
    decreases |plan|
  {
    if plan == [] then Ok(map[])
    else
      match read(plan[0])
      case Err(e) => Err(e)
      case Ok(x) =>
        var rest := ReadPlan(read, plan[1..]);
        assert forall g :: g in plan <==> g == plan[0] || g in plan[1..];
        match rest
        case Err(e) =>
          assert exists i :: 1 <= i < |plan| && read(plan[i]) == Err(e)
                             && forall j :: 0 <= j < i ==> read(plan[j]).Ok? by {
            var i' :| 0 <= i' < |plan[1..]| && read(plan[1..][i']) == Err(e)
                      && forall j :: 0 <= j < i' ==> read(plan[1..][j]).Ok?;
            assert read(plan[i' + 1]) == Err(e);
            assert forall j :: 0 <= j < i' + 1 ==> read(plan[j]).Ok? by {
              forall j | 0 <= j < i' + 1 ensures read(plan[j]).Ok? {
                if j > 0 { assert plan[j] == plan[1..][j - 1]; }
              }
            }
          }
          Err(e)
        case Ok(m) => Ok(m[plan[0] := x])
  }

  /** A getter's value, or zero when it was not (successfully) read. */
  function Reading(m: map<Getter, real>, g: Getter): real {
    if g in m then m[g] else 0.0
  }

  /** The snapshot made from the recorded getter values; unread fields stay zero. */
  function Assemble(m: map<Getter, real>, nowMs: nat): Values {
    var dcPower := Reading(m, DcPower(InputTotal));
    var acPowerActive := Reading(m, AcPowerActive);
    Values(
      nowMs,
      Reading(m, AcEnergy) * EnergyScale,
      acPowerActive,
      Reading(m, AcPowerApparent),
      Reading(m, AcPowerReactive),
      Reading(m, AcPowerFactor),
      Phase(Reading(m, AcVoltage(PhaseA)), Reading(m, AcCurrent(PhaseA))),
      Phase(Reading(m, AcVoltage(PhaseB)), Reading(m, AcCurrent(PhaseB))),
      Phase(Reading(m, AcVoltage(PhaseC)), Reading(m, AcCurrent(PhaseC))),
      Reading(m, AcFrequency),
      dcPower,
      Efficiency(acPowerActive, dcPower),
      Input(Reading(m, DcVoltage(InputA)), Reading(m, DcCurrent(InputA)),
            Reading(m, DcPower(InputA)), Reading(m, DcEnergy(InputA)) * EnergyScale),
      Input(Reading(m, DcVoltage(InputB)), Reading(m, DcCurrent(InputB)),
            Reading(m, DcPower(InputB)), Reading(m, DcEnergy(InputB)) * EnergyScale))
  }

  // ---------------------------------------------------------------------
  // The snapshot a device determines
  // ---------------------------------------------------------------------

  /** The value the device answers for `g`, zero if it answers with an error. */
  function ReadingOf(dev: Device, g: Getter): real {
    match dev.read(g)
    case Ok(x) => x
    case Err(_) => 0.0
  }

  /** The register fetch and every getter the configuration calls succeed. */
  ghost predicate ValuesReadable(dev: Device) {
    && dev.fetch.Done?
    && forall g :: Called(g, dev.phases, dev.inputs, dev.hybrid) ==> dev.read(g).Ok?
  }

  /**
   `v` holds what the device reported at `nowMs`: each field the value of its
   getter (energies scaled to kWh), phases B and C only on an inverter with
   that many phases, input B only on a two-input inverter, DC energies only on
   a non-hybrid inverter, zero everywhere else, and the efficiency derived
   from the AC and DC power.
   */
  predicate ReflectsDevice(v: Values, dev: Device, nowMs: nat) {
    && v.time == nowMs
    && v.acEnergy == ReadingOf(dev, AcEnergy) * EnergyScale
    && v.acPowerActive == ReadingOf(dev, AcPowerActive)
    && v.acPowerApparent == ReadingOf(dev, AcPowerApparent)
    && v.acPowerReactive == ReadingOf(dev, AcPowerReactive)
    && v.acPowerFactor == ReadingOf(dev, AcPowerFactor)
    && v.phase1 == Phase(ReadingOf(dev, AcVoltage(PhaseA)), ReadingOf(dev, AcCurrent(PhaseA)))
    && v.phase2 == (if dev.phases > 1
                    then Phase(ReadingOf(dev, AcVoltage(PhaseB)), ReadingOf(dev, AcCurrent(PhaseB)))
                    else ZeroPhase)
    && v.phase3 == (if dev.phases > 2
                    then Phase(ReadingOf(dev, AcVoltage(PhaseC)), ReadingOf(dev, AcCurrent(PhaseC)))
                    else ZeroPhase)
    && v.acFrequency == ReadingOf(dev, AcFrequency)
    && v.dcPower == ReadingOf(dev, DcPower(InputTotal))
    && v.efficiency == Efficiency(v.acPowerActive, v.dcPower)
    && v.input1 == Input(ReadingOf(dev, DcVoltage(InputA)), ReadingOf(dev, DcCurrent(InputA)),
                         ReadingOf(dev, DcPower(InputA)),
                         if dev.hybrid then 0.0 else ReadingOf(dev, DcEnergy(InputA)) * EnergyScale)
    && v.input2 == (if dev.inputs == 2
                    then Input(ReadingOf(dev, DcVoltage(InputB)), ReadingOf(dev, DcCurrent(InputB)),
                               ReadingOf(dev, DcPower(InputB)),
                               if dev.hybrid then 0.0 else ReadingOf(dev, DcEnergy(InputB)) * EnergyScale)
                    else ZeroInput)
  }

  /**
   Read a values snapshot: fetch the registers, then call the gated getters in
   order. Any failure is the result; otherwise the snapshot reflects the device.
   */
  function ReadValues(dev: Device, nowMs: nat): (r: Result<Values>)
    ensures r.Ok? <==> ValuesReadable(dev)
    ensures r.Ok? ==> ReflectsDevice(r.value, dev, nowMs)
    ensures r.Err? && dev.fetch.Failed? ==> r.error == dev.fetch.error
    ensures r.Err? && dev.fetch.Done? ==>
      var plan := ValuePlan(dev.phases, dev.inputs, dev.hybrid);
      exists i :: 0 <= i < |plan| && dev.read(plan[i]) == Err(r.error)
                  && forall j :: 0 <= j < i ==> dev.read(plan[j]).Ok?
  {
    if dev.fetch.Failed? then Err(dev.fetch.error)
    else
      var plan := ValuePlan(dev.phases, dev.inputs, dev.hybrid);
      match ReadPlan(dev.read, plan)
      case Err(e) => Err(e)
      case Ok(m) =>
        AssembleReflectsDevice(dev, m, nowMs);
        Ok(Assemble(m, nowMs))
  }

  /** Assembling the values of exactly the called getters reflects the device. */
  lemma AssembleReflectsDevice(dev: Device, m: map<Getter, real>, nowMs: nat)
    requires forall g :: g in m <==> Called(g, dev.phases, dev.inputs, dev.hybrid)
    requires forall g :: g in m ==> dev.read(g) == Ok(m[g])
    ensures ReflectsDevice(Assemble(m, nowMs), dev, nowMs)
  {
    forall g
      ensures Reading(m, g) == if Called(g, dev.phases, dev.inputs, dev.hybrid) then ReadingOf(dev, g) else 0.0
    {
    }
  }

  // ---------------------------------------------------------------------
  // The values document
  // ---------------------------------------------------------------------

  function PhaseAt(v: Values, i: nat): Phase
    requires i < 3
  {
    if i == 0 then v.phase1 else if i == 1 then v.phase2 else v.phase3
  }

  function InputAt(v: Values, i: nat): Input
    requires i < 2
  {
    if i == 0 then v.input1 else v.input2
  }

  /** The first `n` phase objects, appended one by one. */
  function PhaseDocs(v: Values, n: nat): (r: seq<PhaseDoc>)
    requires n <= 3
    ensures |r| == n
    ensures forall i :: 0 <= i < n ==>
      r[i] == PhaseDoc(i + 1, PhaseAt(v, i).acVoltage, PhaseAt(v, i).acCurrent)
  {
    if n == 0 then []
    else PhaseDocs(v, n - 1) + [PhaseDoc(n, PhaseAt(v, n - 1).acVoltage, PhaseAt(v, n - 1).acCurrent)]
  }

  /** The first `n` input objects; `dc_energy` only on a non-hybrid inverter. */
  function InputDocs(v: Values, n: nat, hybrid: bool): (r: seq<InputDoc>)
    requires n <= 2
    ensures |r| == n
    ensures forall i :: 0 <= i < n ==>
      var input := InputAt(v, i);
      r[i] == InputDoc(i + 1, input.dcVoltage, input.dcCurrent, input.dcPower,
                       if hybrid then None else Some(input.dcEnergy))
  {
    if n == 0 then []
    else
      var input := InputAt(v, n - 1);
      InputDocs(v, n - 1, hybrid)
        + [InputDoc(n, input.dcVoltage, input.dcCurrent, input.dcPower,
                    if hybrid then None else Some(input.dcEnergy))]
  }

  /**
   The values document: the scalars of the snapshot, one phase object per
   phase (clamped to 1..3) and one input object per input (clamped to 1..2),
   numbered from 1.
   */
  function BuildValuesDoc(v: Values, phases: int, inputs: int, hybrid: bool): (d: ValuesDoc)
    ensures d.time == v.time && d.acEnergy == v.acEnergy && d.acPowerActive == v.acPowerActive
    ensures d.acPowerApparent == v.acPowerApparent && d.acPowerReactive == v.acPowerReactive
    ensures d.acPowerFactor == v.acPowerFactor && d.acFrequency == v.acFrequency
    ensures d.dcPower == v.dcPower && d.efficiency == v.efficiency
    ensures 1 <= |d.phases| <= 3 && (1 <= phases <= 3 ==> |d.phases| == phases)
    ensures phases < 1 ==> |d.phases| == 1
    ensures phases > 3 ==> |d.phases| == 3
    ensures 1 <= |d.inputs| <= 2 && (1 <= inputs <= 2 ==> |d.inputs| == inputs)
    ensures inputs < 1 ==> |d.inputs| == 1
    ensures inputs > 2 ==> |d.inputs| == 2
    ensures forall i :: 0 <= i < |d.phases| ==>
      d.phases[i] == PhaseDoc(i + 1, PhaseAt(v, i).acVoltage, PhaseAt(v, i).acCurrent)
    ensures forall i :: 0 <= i < |d.inputs| ==>
      && d.inputs[i].id == i + 1
      && d.inputs[i].dcVoltage == InputAt(v, i).dcVoltage
      && d.inputs[i].dcCurrent == InputAt(v, i).dcCurrent
      && d.inputs[i].dcPower == InputAt(v, i).dcPower
      && (d.inputs[i].dcEnergy.Some? <==> !hybrid)
      && (d.inputs[i].dcEnergy.Some? ==> d.inputs[i].dcEnergy.value == InputAt(v, i).dcEnergy)
  {
    ValuesDoc(
      v.time, v.acEnergy, v.acPowerActive, v.acPowerApparent, v.acPowerReactive, v.acPowerFactor,
      PhaseDocs(v, Clamp(phases, 1, 3)),
      v.acFrequency, v.dcPower, v.efficiency,
      InputDocs(v, Clamp(inputs, 1, 2), hybrid))
  }
}
