/**
 * `InputFilter`: decides per input event whether the event's device is
 * valid, marks invalid events handled, and remembers the verdict per device
 * in one registry shared by every filter. A subclass supplies the decision
 * (`IsDeviceValid`), which sees the verdict remembered for the device, if any.
 */
module InputFilter {
  import opened Wrappers

  type Device = int

  /** The static device-to-verdict registry. */
  type Registry = map<Device, bool>

  /** A subclass's `IsDeviceValid`: the remembered verdict (None for an unseen device) and the device. */
  type Decision = (Option<bool>, Device) -> bool

  /** `GetIsFilterValid`: the remembered verdict, or nothing for a device never seen (or since deactivated). */
  function GetIsFilterValid(registry: Registry, device: Device): (r: Option<bool>)
    ensures r.None? <==> device !in registry
    ensures r.Some? ==> r.value == registry[device]
  {
    if device in registry then Some(registry[device]) else None
  }

  /** `SetIsFilterValid`: add or overwrite the device's verdict. */
  function SetIsFilterValid(registry: Registry, device: Device, value: bool): (r: Registry)
    ensures r.Keys == registry.Keys + {device}
    ensures GetIsFilterValid(r, device) == Some(value)
    ensures forall d :: d != device ==> GetIsFilterValid(r, d) == GetIsFilterValid(registry, d)
  {
    registry[device := value]
  }

  /** The registry after an event, and the event's `Handled` flag. */
  datatype Outcome = Outcome(registry: Registry, handled: bool)

  /** The verdict `ProcessEvent` reaches: the subclass's decision, negated by `InvertFilter`. */
  function Verdict(registry: Registry, invert: bool, decide: Decision, device: Device): bool
  {
    var isValid := decide(GetIsFilterValid(registry, device), device);
    if invert then !isValid else isValid
  }

  /**
   * `ProcessEvent`: an event whose verdict is invalid becomes handled (a
   * valid one keeps whatever it had), and the verdict, after inversion, is
   * what the registry remembers.
   */
  function ProcessEvent(registry: Registry, invert: bool, decide: Decision, device: Device, handled: bool): (r: Outcome)
    ensures r.handled <==> handled || !Verdict(registry, invert, decide, device)
    ensures GetIsFilterValid(r.registry, device) == Some(Verdict(registry, invert, decide, device))
    ensures forall d :: d != device ==> GetIsFilterValid(r.registry, d) == GetIsFilterValid(registry, d)
  {
    var isValid := Verdict(registry, invert, decide, device);
    Outcome(SetIsFilterValid(registry, device, isValid), handled || !isValid)
  }

  /** `ProcessEventDeactivation`: process the event as usual, then forget the device. */
  function ProcessEventDeactivation(registry: Registry, invert: bool, decide: Decision, device: Device, handled: bool): (r: Outcome)
    ensures r.handled == ProcessEvent(registry, invert, decide, device, handled).handled
    ensures GetIsFilterValid(r.registry, device) == None
    ensures forall d :: d != device ==> GetIsFilterValid(r.registry, d) == GetIsFilterValid(registry, d)
  {
    var processed := ProcessEvent(registry, invert, decide, device, handled);
    Outcome(processed.registry - {device}, processed.handled)
  }

  /**
   * The next event from the same device, through any filter, is decided
   * knowing the verdict just stored: with `InvertFilter` set that is the
   * inverted verdict, not the subclass's own answer.
   */
  lemma NextEventSeesStoredVerdict(registry: Registry, invert: bool, decide: Decision, device: Device, handled: bool,
                                   nextInvert: bool, nextDecide: Decision)
    ensures var first := ProcessEvent(registry, invert, decide, device, handled);
      var own := decide(GetIsFilterValid(registry, device), device);
      Verdict(first.registry, nextInvert, nextDecide, device)
        == (var isValid := nextDecide(Some(if invert then !own else own), device); if nextInvert then !isValid else isValid)
  {
  }

  /** After a deactivation, the device's next event is decided as for a device never seen. */
  lemma DeactivationForgets(registry: Registry, invert: bool, decide: Decision, device: Device, handled: bool,
                            nextInvert: bool, nextDecide: Decision)
    ensures var r := ProcessEventDeactivation(registry, invert, decide, device, handled);
      Verdict(r.registry, nextInvert, nextDecide, device) == Verdict(map[], nextInvert, nextDecide, device)
  {
  }

  /** An event that was already handled stays handled; an unhandled one becomes handled iff it is rejected. */
  lemma HandledOnlyGrows(registry: Registry, invert: bool, decide: Decision, device: Device)
    ensures ProcessEvent(registry, invert, decide, device, true).handled
    ensures ProcessEvent(registry, invert, decide, device, false).handled == !Verdict(registry, invert, decide, device)
  {
  }
}
