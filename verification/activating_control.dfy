/**
 * `ActivatingContentControl`: two four-state machines, activation
 * (Inactive, Activating, Active, Deactivating) and enablement (Disabled,
 * Enabling, Enabled, Disabling), each mirrored into a boolean dependency
 * property. A transition passes through its intermediate state and, unless a
 * subclass override reports that it will finish the transition itself (after
 * an animation, say), straight on to the end state.
 */
module ActivatingControl {

  datatype ActivationStatus = Inactive | Deactivating | Active | Activating

  datatype EnabledStatus = Disabled | Disabling | Enabled | Enabling

  /** What the subclass overrides return: true means "I will finish this transition myself". */
  datatype Overrides = Overrides(
    activatingHandled: bool,
    deactivatingHandled: bool,
    enablingHandled: bool,
    disablingHandled: bool)

  /** The base class's overrides, which all return false. */
  const Defaults := Overrides(false, false, false, false)

  /** The notifications the control raises, in order. */
  datatype Notice =
    | ActivationStatusChanged
    | EnabledStatusChanged
    | ActivatingRaised
    | ActivatedRaised
    | DeactivatingRaised
    | DeactivatedRaised
    | EnablingRaised
    | EnabledRaised
    | DisablingRaised
    | DisabledRaised
    | IsEnabledChanged(oldValue: bool, newValue: bool)

  /** The control: both statuses, both dependency properties, and the notifications raised so far. */
  datatype Control = Control(
    activation: ActivationStatus,
    isActive: bool,
    enabled: EnabledStatus,
    isEnabled: bool,
    notices: seq<Notice>)

  /** A new control: Inactive and not active, Enabled and enabled. */
  const Initial := Control(Inactive, false, Enabled, true, [])

  predicate IsActiveOrActivating(c: Control) { c.activation == Active || c.activation == Activating }

  predicate IsEnabledOrEnabling(c: Control) { c.enabled == Enabled || c.enabled == Enabling }

  /** `IsEnabledCore`: the control takes input unless it is fully disabled. */
  predicate IsEnabledCore(c: Control) { c.enabled != Disabled }

  function Notify(c: Control, n: Notice): (r: Control)
    ensures |r.notices| == |c.notices| + 1 && r.notices[|c.notices|] == n
  {
    c.(notices := c.notices + [n])
  }

  /**
   * The `IsActive` property written from inside the control. Its change
   * callback calls `SetIsActive` with the new value, which does nothing in
   * the state the write is made from (`IsActiveCallbackInert`), so the
   * callback is left out here.
   */
  function WriteIsActive(c: Control, value: bool): Control
  {
    if c.isActive == value then c else c.(isActive := value)
  }

  /**
   * The `IsEnabled` property written from inside the control: a change raises
   * `IsEnabledChanged`; the callback's `SetIsEnabled` does nothing here
   * (`IsEnabledCallbackInert`).
   */
  function WriteIsEnabled(c: Control, value: bool): Control
  {
    if c.isEnabled == value then c else Notify(c.(isEnabled := value), IsEnabledChanged(c.isEnabled, value))
  }

  /**
   * The `ActivationStatus` setter: nothing on an equal value; otherwise store
   * it, notify, and mirror Active into `IsActive` = true and Inactive into false.
   */
  function SetActivationStatus(c: Control, value: ActivationStatus): (r: Control)
    ensures c.activation == value ==> r == c
    ensures r.activation == value
    ensures c.activation != value ==> |r.notices| == |c.notices| + 1 && r.notices[|c.notices|] == ActivationStatusChanged
    ensures r.isActive == (if c.activation != value && value == Active then true
                           else if c.activation != value && value == Inactive then false
                           else c.isActive)
    ensures r.enabled == c.enabled && r.isEnabled == c.isEnabled
  {
    if c.activation == value then c
    else
      var changed := Notify(c.(activation := value), ActivationStatusChanged);
      if value == Active then WriteIsActive(changed, true)
      else if value == Inactive then WriteIsActive(changed, false)
      else changed
  }

  /** The `EnabledStatus` setter, mirroring Enabled and Disabled into `IsEnabled`. */
  function SetEnabledStatus(c: Control, value: EnabledStatus): (r: Control)
    ensures c.enabled == value ==> r == c
    ensures r.enabled == value
    ensures c.enabled != value ==> |r.notices| >= |c.notices| + 1 && r.notices[|c.notices|] == EnabledStatusChanged
    ensures r.isEnabled == (if c.enabled != value && value == Enabled then true
                            else if c.enabled != value && value == Disabled then false
                            else c.isEnabled)
    ensures r.activation == c.activation && r.isActive == c.isActive
  {
    if c.enabled == value then c
    else
      var changed := Notify(c.(enabled := value), EnabledStatusChanged);
      if value == Enabled then WriteIsEnabled(changed, true)
      else if value == Disabled then WriteIsEnabled(changed, false)
      else changed
  }

  function OnActivated(c: Control): (r: Control)
    ensures r.activation == Active && |r.notices| > 0 && r.notices[|r.notices| - 1] == ActivatedRaised
  {
    Notify(SetActivationStatus(c, Active), ActivatedRaised)
  }

  /** `OnActivating`: Activating, the override, the Activating event, then `OnActivated` unless handled. */
  function OnActivating(c: Control, ov: Overrides): (r: Control)
    ensures r.activation == (if ov.activatingHandled then Activating else Active)
  {
    var activating := Notify(SetActivationStatus(c, Activating), ActivatingRaised);
    if ov.activatingHandled then activating else OnActivated(activating)
  }

  function OnDeactivated(c: Control): (r: Control)
    ensures r.activation == Inactive && |r.notices| > 0 && r.notices[|r.notices| - 1] == DeactivatedRaised
  {
    Notify(SetActivationStatus(c, Inactive), DeactivatedRaised)
  }

  function OnDeactivating(c: Control, ov: Overrides): (r: Control)
    ensures r.activation == (if ov.deactivatingHandled then Deactivating else Inactive)
  {
    var deactivating := Notify(SetActivationStatus(c, Deactivating), DeactivatingRaised);
    if ov.deactivatingHandled then deactivating else OnDeactivated(deactivating)
  }

  function OnEnabled(c: Control): (r: Control)
    ensures r.enabled == Enabled && |r.notices| > 0 && r.notices[|r.notices| - 1] == EnabledRaised
  {
    Notify(SetEnabledStatus(c, Enabled), EnabledRaised)
  }

  function OnEnabling(c: Control, ov: Overrides): (r: Control)
    ensures r.enabled == (if ov.enablingHandled then Enabling else Enabled)
  {
    var enabling := Notify(SetEnabledStatus(c, Enabling), EnablingRaised);
    if ov.enablingHandled then enabling else OnEnabled(enabling)
  }

  function OnDisabled(c: Control): (r: Control)
    ensures r.enabled == Disabled && |r.notices| > 0 && r.notices[|r.notices| - 1] == DisabledRaised
  {
    Notify(SetEnabledStatus(c, Disabled), DisabledRaised)
  }

  function OnDisabling(c: Control, ov: Overrides): (r: Control)
    ensures r.enabled == (if ov.disablingHandled then Disabling else Disabled)
  {
    var disabling := Notify(SetEnabledStatus(c, Disabling), DisablingRaised);
    if ov.disablingHandled then disabling else OnDisabled(disabling)
  }

  /**
   * `SetIsActive(true)` starts activating only from Inactive or Deactivating;
   * `SetIsActive(false)` starts deactivating only from Activating or Active;
   * in every other state nothing changes.
   */
  function SetIsActive(c: Control, isActive: bool, ov: Overrides): (r: Control)
    ensures isActive && !IsActiveOrActivating(c) ==> r == OnActivating(c, ov)
    ensures !isActive && IsActiveOrActivating(c) ==> r == OnDeactivating(c, ov)
    ensures isActive == IsActiveOrActivating(c) ==> r == c
    ensures IsActiveOrActivating(r) == isActive
  {
    if isActive then
      if c.activation == Deactivating || c.activation == Inactive then OnActivating(c, ov) else c
    else
      if c.activation == Activating || c.activation == Active then OnDeactivating(c, ov) else c
  }

  /** `ToggleIsActive`: deactivate from Active or Activating, activate otherwise. */
  function ToggleIsActive(c: Control, ov: Overrides): (r: Control)
    ensures IsActiveOrActivating(r) == !IsActiveOrActivating(c)
    ensures r == SetIsActive(c, !IsActiveOrActivating(c), ov)
  {
    if c.activation == Active || c.activation == Activating then OnDeactivating(c, ov)
    else OnActivating(c, ov)
  }

  /** `SetIsEnabled`, the enablement twin of `SetIsActive`. */
  function SetIsEnabled(c: Control, isEnabled: bool, ov: Overrides): (r: Control)
    ensures isEnabled && !IsEnabledOrEnabling(c) ==> r == OnEnabling(c, ov)
    ensures !isEnabled && IsEnabledOrEnabling(c) ==> r == OnDisabling(c, ov)
    ensures isEnabled == IsEnabledOrEnabling(c) ==> r == c
    ensures IsEnabledOrEnabling(r) == isEnabled
  {
    if isEnabled then
      if c.enabled == Disabling || c.enabled == Disabled then OnEnabling(c, ov) else c
    else
      if c.enabled == Enabling || c.enabled == Enabled then OnDisabling(c, ov) else c
  }

  /** `IsActive` set through the dependency property: a change runs `SetIsActive` with the new value. */
  function WriteIsActiveProperty(c: Control, value: bool, ov: Overrides): (r: Control)
    ensures c.isActive == value ==> r == c
    ensures c.isActive != value ==> r.isActive == value && IsActiveOrActivating(r) == value
  {
    if c.isActive == value then c else SetIsActive(c.(isActive := value), value, ov)
  }

  /** `IsEnabled` set through the dependency property: a change raises `IsEnabledChanged`, then runs `SetIsEnabled`. */
  function WriteIsEnabledProperty(c: Control, value: bool, ov: Overrides): (r: Control)
    ensures c.isEnabled == value ==> r == c
    ensures c.isEnabled != value ==> IsEnabledOrEnabling(r) == value
  {
    if c.isEnabled == value then c
    else SetIsEnabled(Notify(c.(isEnabled := value), IsEnabledChanged(c.isEnabled, value)), value, ov)
  }

  /** On `Loaded` both machines re-enter their current direction, without transitions. */
  function Loaded(c: Control, ov: Overrides): (r: Control)
    ensures IsActiveOrActivating(r) == IsActiveOrActivating(c)
    ensures IsEnabledOrEnabling(r) == IsEnabledOrEnabling(c)
  {
    var activation := if IsActiveOrActivating(c) then OnActivating(c, ov) else OnDeactivating(c, ov);
    if IsEnabledOrEnabling(activation) then OnEnabling(activation, ov) else OnDisabling(activation, ov)
  }

  /**
   * The dependency properties agree with the end states: Active implies
   * `IsActive`, Inactive implies not, and likewise for enablement.
   */
  predicate Inv(c: Control)
  {
    ActivationAgrees(c) && EnablementAgrees(c)
  }

  /** The property written when reaching Active or Inactive already agrees, so its callback does nothing. */
  lemma IsActiveCallbackInert(c: Control, ov: Overrides)
    requires c.activation == Active || c.activation == Inactive
    ensures SetIsActive(c, c.activation == Active, ov) == c
  {
  }

  lemma IsEnabledCallbackInert(c: Control, ov: Overrides)
    requires c.enabled == Enabled || c.enabled == Disabled
    ensures SetIsEnabled(c, c.enabled == Enabled, ov) == c
  {
  }

  /** One public or subclass call on the control. */
  datatype Op =
    | SetActive(value: bool)
    | Toggle
    | SetEnabled(value: bool)
    | WriteIsActiveDp(value: bool)
    | WriteIsEnabledDp(value: bool)
    | FinishActivating
    | FinishDeactivating
    | FinishEnabling
    | FinishDisabling
    | Load

  function Apply(c: Control, op: Op, ov: Overrides): Control
  {
    match op
    case SetActive(v) => SetIsActive(c, v, ov)
    case Toggle => ToggleIsActive(c, ov)
    case SetEnabled(v) => SetIsEnabled(c, v, ov)
    case WriteIsActiveDp(v) => WriteIsActiveProperty(c, v, ov)
    case WriteIsEnabledDp(v) => WriteIsEnabledProperty(c, v, ov)
    case FinishActivating => OnActivated(c)
    case FinishDeactivating => OnDeactivated(c)
    case FinishEnabling => OnEnabled(c)
    case FinishDisabling => OnDisabled(c)
    case Load => Loaded(c, ov)
  }

  lemma InitialInv()
    ensures Inv(Initial)
  {
  }

  predicate ActivationAgrees(c: Control)
  {
    (c.activation == Active ==> c.isActive) && (c.activation == Inactive ==> !c.isActive)
  }

  predicate EnablementAgrees(c: Control)
  {
    (c.enabled == Enabled ==> c.isEnabled) && (c.enabled == Disabled ==> !c.isEnabled)
  }

  /**
   * Entering a transition re-establishes agreement on its own, whatever the
   * property held before; finishing one needs it beforehand only when the
   * status does not change. The other machine is untouched throughout.
   */
  lemma ActivationStepsAgree(c: Control, ov: Overrides)
    ensures ActivationAgrees(OnActivating(c, ov)) && ActivationAgrees(OnDeactivating(c, ov))
    ensures ActivationAgrees(c) ==> ActivationAgrees(OnActivated(c)) && ActivationAgrees(OnDeactivated(c))
    ensures EnablementAgrees(c) ==> EnablementAgrees(OnActivating(c, ov)) && EnablementAgrees(OnDeactivating(c, ov))
    ensures EnablementAgrees(c) ==> EnablementAgrees(OnActivated(c)) && EnablementAgrees(OnDeactivated(c))
  {
    ActivatingAgrees(c, ov);
    DeactivatingAgrees(c, ov);
    ActivatedAgrees(c);
    DeactivatedAgrees(c);
  }

  lemma ActivatedAgrees(c: Control)
    ensures ActivationAgrees(c) ==> ActivationAgrees(OnActivated(c))
    ensures EnablementAgrees(c) ==> EnablementAgrees(OnActivated(c))
  {
  }

  lemma DeactivatedAgrees(c: Control)
    ensures ActivationAgrees(c) ==> ActivationAgrees(OnDeactivated(c))
    ensures EnablementAgrees(c) ==> EnablementAgrees(OnDeactivated(c))
  {
  }

  lemma ActivatingAgrees(c: Control, ov: Overrides)
    ensures ActivationAgrees(OnActivating(c, ov))
    ensures EnablementAgrees(c) ==> EnablementAgrees(OnActivating(c, ov))
  {
    var activating := Notify(SetActivationStatus(c, Activating), ActivatingRaised);
    assert activating.activation == Activating;
    ActivatedAgrees(activating);
  }

  lemma DeactivatingAgrees(c: Control, ov: Overrides)
    ensures ActivationAgrees(OnDeactivating(c, ov))
    ensures EnablementAgrees(c) ==> EnablementAgrees(OnDeactivating(c, ov))
  {
    var deactivating := Notify(SetActivationStatus(c, Deactivating), DeactivatingRaised);
    assert deactivating.activation == Deactivating;
    DeactivatedAgrees(deactivating);
  }

  lemma EnabledStepsAgree(c: Control, ov: Overrides)
    ensures EnablementAgrees(OnEnabling(c, ov)) && EnablementAgrees(OnDisabling(c, ov))
    ensures EnablementAgrees(c) ==> EnablementAgrees(OnEnabled(c)) && EnablementAgrees(OnDisabled(c))
    ensures ActivationAgrees(c) ==> ActivationAgrees(OnEnabling(c, ov)) && ActivationAgrees(OnDisabling(c, ov))
    ensures ActivationAgrees(c) ==> ActivationAgrees(OnEnabled(c)) && ActivationAgrees(OnDisabled(c))
  {
    EnablingAgrees(c, ov);
    DisablingAgrees(c, ov);
    EnabledAgrees(c);
    DisabledAgrees(c);
  }

  lemma EnabledAgrees(c: Control)
    ensures EnablementAgrees(c) ==> EnablementAgrees(OnEnabled(c))
    ensures ActivationAgrees(c) ==> ActivationAgrees(OnEnabled(c))
  {
  }

  lemma DisabledAgrees(c: Control)
    ensures EnablementAgrees(c) ==> EnablementAgrees(OnDisabled(c))
    ensures ActivationAgrees(c) ==> ActivationAgrees(OnDisabled(c))
  {
  }

  lemma EnablingAgrees(c: Control, ov: Overrides)
    ensures EnablementAgrees(OnEnabling(c, ov))
    ensures ActivationAgrees(c) ==> ActivationAgrees(OnEnabling(c, ov))
  {
    var enabling := Notify(SetEnabledStatus(c, Enabling), EnablingRaised);
    assert enabling.enabled == Enabling;
    EnabledAgrees(enabling);
  }

  lemma DisablingAgrees(c: Control, ov: Overrides)
    ensures EnablementAgrees(OnDisabling(c, ov))
    ensures ActivationAgrees(c) ==> ActivationAgrees(OnDisabling(c, ov))
  {
    var disabling := Notify(SetEnabledStatus(c, Disabling), DisablingRaised);
    assert disabling.enabled == Disabling;
    DisabledAgrees(disabling);
  }

  lemma WriteIsActivePropertyAgrees(c: Control, v: bool, ov: Overrides)
    requires Inv(c)
    ensures Inv(WriteIsActiveProperty(c, v, ov))
  {
    if c.isActive != v {
      var written := c.(isActive := v);
      ActivationStepsAgree(written, ov);
      assert EnablementAgrees(written);
    }
  }

  lemma WriteIsEnabledPropertyAgrees(c: Control, v: bool, ov: Overrides)
    requires Inv(c)
    ensures Inv(WriteIsEnabledProperty(c, v, ov))
  {
    if c.isEnabled != v {
      var written := Notify(c.(isEnabled := v), IsEnabledChanged(c.isEnabled, v));
      EnabledStepsAgree(written, ov);
      assert ActivationAgrees(written);
    }
  }

  lemma LoadedAgrees(c: Control, ov: Overrides)
    requires Inv(c)
    ensures Inv(Loaded(c, ov))
  {
    ActivationStepsAgree(c, ov);
    var activation := if IsActiveOrActivating(c) then OnActivating(c, ov) else OnDeactivating(c, ov);
    EnabledStepsAgree(activation, ov);
  }

  /** Every call, whatever the overrides return, keeps the properties in agreement with the statuses. */
  lemma ApplyPreservesInv(c: Control, op: Op, ov: Overrides)
    requires Inv(c)
    ensures Inv(Apply(c, op, ov))
  {
    match op
    case WriteIsActiveDp(v) => WriteIsActivePropertyAgrees(c, v, ov);
    case WriteIsEnabledDp(v) => WriteIsEnabledPropertyAgrees(c, v, ov);
    case Load => LoadedAgrees(c, ov);
    case SetActive(v) => ActivatingAgrees(c, ov); DeactivatingAgrees(c, ov);
    case Toggle => ActivatingAgrees(c, ov); DeactivatingAgrees(c, ov);
    case FinishActivating => ActivatedAgrees(c);
    case FinishDeactivating => DeactivatedAgrees(c);
    case SetEnabled(v) => EnablingAgrees(c, ov); DisablingAgrees(c, ov);
    case FinishEnabling => EnabledAgrees(c);
    case FinishDisabling => DisabledAgrees(c);
  }

  /**
   * With the base overrides, activating from Inactive raises, in order: the
   * status change to Activating, Activating, the change to Active, Activated;
   * and leaves the control Active with `IsActive` set.
   */
  lemma ActivateOrder(c: Control)
    requires c.activation == Inactive
    ensures var r := SetIsActive(c, true, Defaults);
      && r.activation == Active && r.isActive
      && r.notices == c.notices + [ActivationStatusChanged, ActivatingRaised, ActivationStatusChanged, ActivatedRaised]
  {
  }

  /** With the base overrides, deactivating from Active passes through Deactivating to Inactive. */
  lemma DeactivateOrder(c: Control)
    requires c.activation == Active
    ensures var r := SetIsActive(c, false, Defaults);
      && r.activation == Inactive && !r.isActive
      && r.notices == c.notices + [ActivationStatusChanged, DeactivatingRaised, ActivationStatusChanged, DeactivatedRaised]
  {
  }

  /** Disabling an enabled control with the base overrides raises the property change between the status changes. */
  lemma DisableOrder(c: Control)
    requires c.enabled == Enabled && c.isEnabled
    ensures var r := SetIsEnabled(c, false, Defaults);
      && r.enabled == Disabled && !r.isEnabled && !IsEnabledCore(r)
      && r.notices == c.notices + [EnabledStatusChanged, DisablingRaised, EnabledStatusChanged,
                                   IsEnabledChanged(true, false), DisabledRaised]
  {
  }

  /**
   * With the base overrides every call ends in an end state, so the
   * intermediate states are never observed between calls.
   */
  lemma DefaultsReachEndStates(c: Control, op: Op)
    requires c.activation in {Active, Inactive} && c.enabled in {Enabled, Disabled}
    ensures Apply(c, op, Defaults).activation in {Active, Inactive}
    ensures Apply(c, op, Defaults).enabled in {Enabled, Disabled}
  {
    match op
    case SetActive(v) =>
    case Toggle =>
    case SetEnabled(v) =>
    case WriteIsActiveDp(v) =>
    case WriteIsEnabledDp(v) =>
    case FinishActivating =>
    case FinishDeactivating =>
    case FinishEnabling =>
    case FinishDisabling =>
    case Load =>
  }
}
