/**
 The simulated EV controller: the counters that decide how long precharging,
 the charging loop and welding detection last.
 */
module EvController {

  datatype Controller = Controller(
    cycles: int,
    increment: real,
    prechargeCycles: int,
    weldingCycles: int,
    completed: bool,
    soc: int)
  {
    predicate Complete() {
      soc == 100 || completed
    }

    /** `continue_charging` answers true and consumes a cycle, or answers false and changes nothing. */
    predicate Continues() {
      cycles != 0 && !Complete()
    }

    function AfterContinue(): Controller {
      if Continues() then this.(cycles := cycles - 1, soc := Charged()) else this
    }

    function Charged(): int {
      var raised := (soc as real + increment).Floor;
      if raised < 100 then raised else 100
    }

    predicate Precharged(evseVoltage: real) {
      prechargeCycles == 5 || evseVoltage == PRESENT_VOLTAGE
    }

    function AfterPrechargeCheck(evseVoltage: real): Controller {
      if Precharged(evseVoltage) then this else this.(prechargeCycles := prechargeCycles + 1)
    }

    predicate WeldingFinished() {
      weldingCycles == 3
    }

    function AfterWeldingCheck(): Controller {
      if WeldingFinished() then this else this.(weldingCycles := weldingCycles + 1)
    }
  }

  /** 20 kV, the constant voltage the simulated vehicle reports. */
  const PRESENT_VOLTAGE: real := 20000.0
  /** The simulated vehicle's constant demand. */
  const TARGET_VOLTAGE: real := 500.0
  const TARGET_CURRENT: real := 1.0

  /** A controller built from a configured number of charging cycles. */
  function Fresh(chargeLoopCycle: int): Controller {
    var cycles := if chargeLoopCycle > 1 then chargeLoopCycle else 1;
    Controller(cycles, 100.0 / cycles as real, 0, 0, false, 10)
  }

  class SimController {
    var cycles: int
    const increment: real
    var prechargeCycles: int
    var weldingCycles: int
    var completed: bool
    var soc: int

    ghost function Model(): Controller
      reads this
    {
      Controller(cycles, increment, prechargeCycles, weldingCycles, completed, soc)
    }

    constructor (chargeLoopCycle: int)
      ensures Model() == Fresh(chargeLoopCycle)
    {
      var n := if chargeLoopCycle > 1 then chargeLoopCycle else 1;
      cycles, increment := n, 100.0 / n as real;
      prechargeCycles, weldingCycles, completed, soc := 0, 0, false, 10;
    }

    method IsChargingComplete() returns (complete: bool)
      ensures complete == Model().Complete()
    {
      complete := soc == 100 || completed;
    }

    method ContinueCharging() returns (more: bool)
      modifies this
      ensures more == old(Model()).Continues()
      ensures Model() == old(Model()).AfterContinue()
    {
      var complete := IsChargingComplete();
      if cycles == 0 || complete {
        return false;
      }
      cycles := cycles - 1;
      var raised := (soc as real + increment).Floor;
      soc := if raised < 100 then raised else 100;
      return true;
    }

    method IsPrecharged(evseVoltage: real) returns (done: bool)
      modifies this
      ensures done == old(Model()).Precharged(evseVoltage)
      ensures Model() == old(Model()).AfterPrechargeCheck(evseVoltage)
    {
      if prechargeCycles == 5 || evseVoltage == PRESENT_VOLTAGE {
        return true;
      }
      prechargeCycles := prechargeCycles + 1;
      return false;
    }

    method WeldingDetectionHasFinished() returns (done: bool)
      modifies this
      ensures done == old(Model()).WeldingFinished()
      ensures Model() == old(Model()).AfterWeldingCheck()
    {
      if weldingCycles == 3 {
        return true;
      }
      weldingCycles := weldingCycles + 1;
      return false;
    }

    method StopCharging()
      modifies this
      ensures Model() == old(Model()).(completed := true)
    {
      completed := true;
    }

    /** Asking for the power delivery parameter asks whether to continue, and so consumes a cycle. */
    method GetPowerDeliveryParameter()
      modifies this
      ensures Model() == old(Model()).AfterContinue()
    {
      var _ := ContinueCharging();
    }
  }
}
