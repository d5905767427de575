/**
 * The pin logic shared by lib/gpio.js and the GPIO helpers of app.js, over a
 * stand-in for the wiring-pi binding.
 */
module Pins {
  import opened Wrappers

  /**
   * The wiring-pi binding reduced to what the code uses of it: a store of pin
   * values indexed by pin number, and the addressing schema chosen by `setup`.
   * A pin never written reads as undefined (None), as an unset element of a
   * JavaScript array does.
   */
  class WiringPi {
    var pins: map<int, int>
    var schema: Option<string>

    constructor ()
      ensures pins == map[] && schema == None
    {
      pins := map[];
      schema := None;
    }

    function DigitalRead(pin: int): Option<int>
      reads this
    {
      if pin in pins then Some(pins[pin]) else None
    }

    method DigitalWrite(pin: int, state: int)
      modifies this`pins
      ensures pins == old(pins)[pin := state]
    {
      pins := pins[pin := state];
    }

    method Setup(s: string)
      modifies this`schema
      ensures schema == Some(s)
    {
      schema := Some(s);
    }
  }

  /** One entry of a configured GPIO list, `{name, pin, state}`, updated in place. */
  class PinEntry {
    var name: string
    var pin: int
    var state: Option<int>

    constructor (name: string, pin: int, state: Option<int>)
      ensures this.name == name && this.pin == pin && this.state == state
    {
      this.name := name;
      this.pin := pin;
      this.state := state;
    }
  }

  /** The `{pin, state}` record a toggle returns. */
  datatype PinState = PinState(pin: int, state: int)

  /** The two ways a lookup by name throws: no configured list, or no entry of that name. */
  datatype LookupError = NotConfigured | NoSuchName

  /** `value > 0` in JavaScript, where `undefined > 0` is false. */
  predicate IsActive(value: Option<int>) {
    value.Some? && value.value > 0
  }

  /** The entries of an optional configuration, as a set of objects. */
  function EntrySet(entries: Option<seq<PinEntry>>): set<PinEntry> {
    if entries.Some? then set e | e in entries.value else {}
  }

  /** The names of the entries, in order. */
  function Names(entries: seq<PinEntry>): (names: seq<string>)
    reads entries
    ensures |names| == |entries|
    ensures forall k :: 0 <= k < |entries| ==> names[k] == entries[k].name
  {
    if entries == [] then [] else [entries[0].name] + Names(entries[1..])
  }

  /** The position of the first occurrence of a name. */
  function FirstIndex(names: seq<string>, name: string): (r: Option<nat>)
    ensures r.None? <==> name !in names
    ensures r.Some? ==> r.value < |names| && names[r.value] == name
    ensures r.Some? ==> forall j :: 0 <= j < r.value ==> names[j] != name
  {
    if names == [] then None
    else if names[0] == name then Some(0)
    else match FirstIndex(names[1..], name)
      case None => None
      case Some(k) => Some(k + 1)
  }

  /** The refresh loop: each entry's state becomes the value read from its pin. */
  method RefreshStates(entries: seq<PinEntry>, wpi: WiringPi)
    modifies (set e | e in entries)`state
    ensures forall e | e in entries :: e.state == wpi.DigitalRead(e.pin)
  {
    var i := 0;
    while i < |entries|
      invariant 0 <= i <= |entries|
      invariant forall e | e in entries[..i] :: e.state == wpi.DigitalRead(e.pin)
    {
      var entry := entries[i];
      entry.state := wpi.DigitalRead(entry.pin);
      i := i + 1;
    }
    assert entries[..i] == entries;
  }

  /** Writes 0 to an active pin and 1 to any other, and reports the pin and its new value. */
  method Toggle(wpi: WiringPi, pinId: int) returns (r: PinState)
    modifies wpi`pins
    ensures r.pin == pinId
    ensures r.state == if IsActive(old(wpi.DigitalRead(pinId))) then 0 else 1
    ensures wpi.pins == old(wpi.pins)[pinId := r.state]
  {
    var currentState := wpi.DigitalRead(pinId);
    var newState := if currentState.Some? && currentState.value > 0 then 0 else 1;
    wpi.DigitalWrite(pinId, newState);
    return PinState(pinId, newState);
  }

  /** The first entry carrying the given name, if any. */
  method FindElement(entries: seq<PinEntry>, name: string) returns (r: Option<PinEntry>)
    ensures name !in Names(entries) ==> r == None
    ensures name in Names(entries) ==> r == Some(entries[FirstIndex(Names(entries), name).value])
  {
    var i := 0;
    while i < |entries|
      invariant 0 <= i <= |entries|
      invariant forall j :: 0 <= j < i ==> entries[j].name != name
    {
      if entries[i].name == name {
        assert FirstIndex(Names(entries), name).value == i by {
          assert Names(entries)[i] == name;
          assert forall j :: 0 <= j < i ==> Names(entries)[j] != name;
        }
        return Some(entries[i]);
      }
      i := i + 1;
    }
    assert name !in Names(entries) by {
      assert forall k :: 0 <= k < |entries| ==> Names(entries)[k] != name;
    }
    return None;
  }
}
