/**
 * The electrical power system's battery: charged by the sun up to its capacity and
 * drained by the loads down to empty. Charge amounts are exact reals.
 */
module Eps {
  /** The charge after adding `amount`, clamped to the capacity. */
  function Charged(charge: real, capacity: real, amount: real): (r: real)
    ensures r <= capacity
    ensures r == charge + amount || r == capacity
    ensures charge + amount <= capacity ==> r == charge + amount
  {
    if charge + amount > capacity then capacity else charge + amount
  }

  /** The charge after removing `amount`, clamped at zero. */
  function Discharged(charge: real, amount: real): (r: real)
    ensures r >= 0.0
    ensures r == charge - amount || r == 0.0
    ensures charge - amount >= 0.0 ==> r == charge - amount
  {
    if charge - amount < 0.0 then 0.0 else charge - amount
  }

  /** Adding a non-negative amount keeps a charge between empty and full, and never lowers it. */
  lemma ChargedInRange(charge: real, capacity: real, amount: real)
    requires 0.0 <= charge <= capacity && amount >= 0.0
    ensures charge <= Charged(charge, capacity, amount) && 0.0 <= Charged(charge, capacity, amount) <= capacity
  {
  }

  /** Removing a non-negative amount keeps a charge between empty and full, and never raises it. */
  lemma DischargedInRange(charge: real, capacity: real, amount: real)
    requires 0.0 <= charge <= capacity && amount >= 0.0
    ensures Discharged(charge, amount) <= charge && 0.0 <= Discharged(charge, amount) <= capacity
  {
  }

  /** `Battery`. */
  class Battery {
    var capacity: real
    var charge: real

    /** `__init__`: a new battery is full. */
    constructor (capacity: real)
      ensures this.capacity == capacity && charge == capacity
    {
      this.capacity := capacity;
      charge := capacity;
    }

    /**
     * `charge_battery`: adds rate times sun view factor times elapsed time, then clamps
     * to the capacity. `chargingRate` stands for the rate the source leaves to be defined.
     */
    method ChargeBattery(chargingRate: real, sunViewFactor: real, deltaT: real)
      modifies this
      ensures capacity == old(capacity)
      ensures charge == Charged(old(charge), capacity, chargingRate * sunViewFactor * deltaT)
    {
      charge := charge + chargingRate * sunViewFactor * deltaT;
      if charge > capacity {
        charge := capacity;
      }
    }

    /** `discharge_battery`: removes power draw times elapsed time, then clamps at zero. */
    method DischargeBattery(powerDraw: real, deltaT: real)
      modifies this
      ensures capacity == old(capacity)
      ensures charge == Discharged(old(charge), powerDraw * deltaT)
    {
      charge := charge - powerDraw * deltaT;
      if charge < 0.0 {
        charge := 0.0;
      }
    }
  }
}
