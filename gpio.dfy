/**
 * lib/gpio.js: the configured GPIO list, kept in a module variable, and the
 * operations that read and write its pins through the wiring-pi binding.
 */
module Gpio {
  import opened Wrappers
  import opened Pins

  /** The module state: the binding and the configured list (null until `init`). */
  class Gpio {
    const wpi: WiringPi
    var gpios: Option<seq<PinEntry>>

    /** The module as loaded: no configuration yet. */
    constructor (wpi: WiringPi)
      ensures this.wpi == wpi && gpios == None
    {
      this.wpi := wpi;
      gpios := None;
    }

    /**
     * Sets each configured entry's state to the value of its pin. Only the `state`
     * fields of the configured entries may change, so names, pin numbers and the
     * pins themselves are left alone, and before `init` nothing changes at all.
     */
    method UpdatePinStates()
      modifies EntrySet(gpios)`state
      ensures forall e | e in EntrySet(gpios) :: e.state == wpi.DigitalRead(e.pin)
    {
      if gpios.Some? {
        RefreshStates(gpios.value, wpi);
      }
    }

    /** Writes 0 to an active pin and 1 to any other; only that pin changes. */
    method TogglePin(pinId: int) returns (r: PinState)
      modifies wpi`pins
      ensures r.pin == pinId
      ensures r.state == if IsActive(old(wpi.DigitalRead(pinId))) then 0 else 1
      ensures wpi.DigitalRead(pinId) == Some(r.state)
      ensures forall p :: p != pinId ==> wpi.DigitalRead(p) == old(wpi.DigitalRead(p))
    {
      r := Toggle(wpi, pinId);
    }

    /** The pin of the first entry whose name is `pinName`; throws without a list or a match. */
    method GetPinIdByName(pinName: string) returns (r: Result<int, LookupError>)
      ensures gpios.None? ==> r == Err(NotConfigured)
      ensures gpios.Some? && pinName !in Names(gpios.value) ==> r == Err(NoSuchName)
      ensures gpios.Some? && pinName in Names(gpios.value) ==>
        r == Ok(gpios.value[FirstIndex(Names(gpios.value), pinName).value].pin)
    {
      if gpios.None? {
        // findElement reads `length` of null
        return Err(NotConfigured);
      }
      var gpioPin := FindElement(gpios.value, pinName);
      if gpioPin.None? {
        // `.pin` of undefined
        return Err(NoSuchName);
      }
      return Ok(gpioPin.value.pin);
    }

    /** Writes a value to the pin of the first entry of that name; a failed lookup writes nothing. */
    method SetPin(pinName: string, newState: int) returns (failure: Option<LookupError>)
      modifies wpi`pins
      ensures gpios.None? ==> failure == Some(NotConfigured)
      ensures gpios.Some? && pinName !in Names(gpios.value) ==> failure == Some(NoSuchName)
      ensures failure.None? <==> gpios.Some? && pinName in Names(gpios.value)
      ensures failure.Some? ==> wpi.pins == old(wpi.pins)
      ensures failure.None? ==>
        wpi.pins == old(wpi.pins)[gpios.value[FirstIndex(Names(gpios.value), pinName).value].pin := newState]
    {
      var numericPinId := GetPinIdByName(pinName);
      if numericPinId.Err? {
        return Some(numericPinId.error);
      }
      wpi.DigitalWrite(numericPinId.value, newState);
      return None;
    }

    /** Setting a pin twice to the same value leaves the pins as the first call left them. */
    method SetPinTwice(pinName: string, newState: int) returns (first: Option<LookupError>, second: Option<LookupError>)
      modifies wpi`pins
      ensures first == second
      ensures first.None? <==> gpios.Some? && pinName in Names(gpios.value)
      ensures first.None? ==> wpi.DigitalRead(gpios.value[FirstIndex(Names(gpios.value), pinName).value].pin) == Some(newState)
      ensures first.Some? ==> wpi.pins == old(wpi.pins)
    {
      first := SetPin(pinName, newState);
      ghost var afterFirst := wpi.pins;
      second := SetPin(pinName, newState);
      assert wpi.pins == afterFirst;
    }

    /**
     * A missing configuration changes nothing; otherwise the configuration is
     * stored, the binding is set up with the 'gpio' schema and the states are
     * refreshed from the pins.
     */
    method Init(configuration: Option<seq<PinEntry>>)
      modifies this, wpi`schema, EntrySet(configuration)`state
      ensures wpi.pins == old(wpi.pins)
      ensures configuration.None? ==> gpios == old(gpios) && wpi.schema == old(wpi.schema)
      ensures configuration.Some? ==> gpios == configuration && wpi.schema == Some("gpio")
      ensures configuration.Some? ==>
        forall e | e in configuration.value :: e.state == wpi.DigitalRead(e.pin)
    {
      if configuration.Some? {
        gpios := configuration;
        wpi.Setup("gpio");
        UpdatePinStates();
      }
    }
  }
}
