/**
 The settings screen's handlers: switching alerts on or off (which also
 registers or unregisters the background check) and adding a threshold.
 The permission prompt, the task manager and the status query are inputs;
 an `Alert.alert` dialog is recorded by its title.
 */
module SettingsScreen {
  import opened Options
  import opened NotificationStore
  import opened BackgroundTask

  const BackgroundTaskFailed: string := "Background Task Failed"
  const PermissionRequired: string := "Permission Required"
  const InvalidPrice: string := "Invalid Price"

  /** The state the handlers read and write. */
  datatype Screen = Screen(
    store: State,
    registered: bool,           // whether the background task is registered with the scheduler
    backgroundFetchStatus: string,
    newThresholdType: Kind,
    newThresholdPrice: string,
    showAddForm: bool,
    alert: Option<string>)      // the title of the dialog last shown

  /** How `requestNotificationPermissions` ends: its platform calls have no catch, so it can also reject. */
  datatype Permission = Granted | Refused | RequestThrew

  /** What the platform answers while the switch is handled. */
  datatype Platform = Platform(
    permission: Permission,
    query: Call,                // `isTaskRegisteredAsync`
    change: Call,               // `registerTaskAsync` or `unregisterTaskAsync`
    status: StatusQuery)        // `getStatusAsync`

  /** `handleToggleNotifications(value)`. */
  function HandleToggleNotifications(s: Screen, value: bool, p: Platform): (r: Screen)
    ensures r.store.notifications == s.store.notifications
    ensures r.newThresholdType == s.newThresholdType && r.newThresholdPrice == s.newThresholdPrice
    ensures r.showAddForm == s.showAddForm
    ensures !value ==>
      && !r.store.isNotificationsEnabled
      && r.registered == UnregisterBackgroundTask(s.registered, p.query, p.change)
      && r.backgroundFetchStatus == GetBackgroundFetchStatus(p.status)
      && r.alert == s.alert
    ensures value && p.permission.Granted? ==>
      && r.store.isNotificationsEnabled
      && r.registered == RegisterBackgroundTask(s.registered, p.query, p.change).registered
      && var ok := RegisterBackgroundTask(s.registered, p.query, p.change).returned;
        && (ok ==> r.backgroundFetchStatus == GetBackgroundFetchStatus(p.status) && r.alert == s.alert)
        && (!ok ==> r.backgroundFetchStatus == s.backgroundFetchStatus && r.alert == Some(BackgroundTaskFailed))
    ensures value && p.permission.Refused? ==>
      r == s.(alert := Some(PermissionRequired))
    ensures value && p.permission.RequestThrew? ==> r == s
  {
    if value then
      if p.permission.RequestThrew? then s
      else if p.permission.Granted? then
        var reg := RegisterBackgroundTask(s.registered, p.query, p.change);
        if reg.returned then
          s.(store := SetNotificationsEnabled(s.store, true), registered := reg.registered,
             backgroundFetchStatus := GetBackgroundFetchStatus(p.status))
        else
          s.(alert := Some(BackgroundTaskFailed), registered := reg.registered,
             store := SetNotificationsEnabled(s.store, true))
      else
        s.(alert := Some(PermissionRequired))
    else
      s.(registered := UnregisterBackgroundTask(s.registered, p.query, p.change),
         store := SetNotificationsEnabled(s.store, false),
         backgroundFetchStatus := GetBackgroundFetchStatus(p.status))
  }

  /** After the handler the flag is the requested value, unless the permission request was refused or threw, which changes nothing. */
  lemma ToggleOutcome(s: Screen, value: bool, p: Platform)
    ensures var r := HandleToggleNotifications(s, value, p);
      r.store.isNotificationsEnabled == (if value && !p.permission.Granted? then s.store.isNotificationsEnabled else value)
  {
  }

  /** Switching off then on again with permission re-registers a task that the switch-off removed. */
  lemma OffThenOnReregisters(s: Screen, off: Platform, on: Platform)
    requires off.query.Succeeded? && off.change.Succeeded?
    requires on.permission.Granted? && on.query.Succeeded? && on.change.Succeeded?
    ensures var r := HandleToggleNotifications(HandleToggleNotifications(s, false, off), true, on);
      r.store.isNotificationsEnabled && r.registered && r.alert == s.alert
  {
  }

  // ---------------------------------------------------------------------------
  // handleAddThreshold

  /** What `parseFloat` made of the price field. */
  datatype Parsed = NotANumber | Number(value: real)

  /** The prices the form accepts: a number greater than zero. */
  predicate Acceptable(price: Parsed)
  {
    price.Number? && price.value > 0.0
  }

  /** `handleAddThreshold`, with `parseFloat`'s result and the id the store draws as inputs. */
  function HandleAddThreshold(s: Screen, price: Parsed, freshId: string): (r: Screen)
    ensures !Acceptable(price) ==> r == s.(alert := Some(InvalidPrice))
    ensures Acceptable(price) ==>
      r == s.(store := AddNotification(s.store, Draft(s.newThresholdType, price.value, true), freshId),
              newThresholdPrice := "", showAddForm := false)
  {
    match price
    case NotANumber => s.(alert := Some(InvalidPrice))
    case Number(v) =>
      if v <= 0.0 then s.(alert := Some(InvalidPrice))
      else s.(store := AddNotification(s.store, Draft(s.newThresholdType, v, true), freshId),
              newThresholdPrice := "", showAddForm := false)
  }

  /** Every rule the form adds has a positive price and starts enabled, so rejected input never enters the store. */
  lemma AddedRulesArePositive(s: Screen, price: Parsed, freshId: string)
    requires forall i :: 0 <= i < |s.store.notifications| ==> s.store.notifications[i].price > 0.0
    ensures var r := HandleAddThreshold(s, price, freshId);
      && (forall i :: 0 <= i < |r.store.notifications| ==> r.store.notifications[i].price > 0.0)
      && (|r.store.notifications| > |s.store.notifications| <==> Acceptable(price))
      && (Acceptable(price) ==> var t := r.store.notifications[|s.store.notifications|];
            t.enabled && t.kind == s.newThresholdType && t.price == price.value)
  {
  }
}
