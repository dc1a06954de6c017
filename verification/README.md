# Belgian electricity price alerts — a Dafny model

The app shows the Belgian day-ahead electricity prices (quarter-hour quotes
from the Elia grid feed) and can alert the user when the current price
crosses thresholds the user set. This project models the decision logic
behind those alerts and the small state around it, as pure functions over
abstract timestamps (integer milliseconds) and prices (`real`):

- **Current-price resolver** (`NotificationService.GetCurrentPrice`): the value
  of the last sample in the leading run of samples dated at or before `now`;
  the scan stops at the first sample dated after `now`.
- **Threshold evaluator** (`NotificationService.CheckPriceThresholds`): the
  notifications the stored rules ask for at a price, in rule order. A
  notification is an `Intent` holding its title and the two numbers its body
  mentions (the threshold and the current price).
- **Rule store** (`NotificationStore`): the reducers that set the global flag
  and add, update, remove and toggle rules, over a sequence of records. The
  fresh id of a new rule is a parameter.
- **Price screen** (`PriceScreen`): the date text of the feed URLs, the
  half-hour chart labels, merging today's and tomorrow's records (with the
  error when both are empty), the nearest-point selection, the chart window,
  the extremes and the "NOW" marker.
- **Background check** (`BackgroundTask`): the result the periodic task
  reports on each path, idempotent registration, and the status text.
- **Settings** (`SettingsScreen`): switching alerts on and off, and adding a
  validated threshold.

The clock (`now`), the local hour and minute of each record, the HTTP
responses, the permission prompt, the task manager's answers and the
status query are all inputs. Each is described by the outcome it produced
(`Response`, `Fetch`, `Call`, `StatusQuery`, `Platform`, `Parsed`).

Two observations the model makes precise:

- The screen's "current" point is the sample nearest to the clock by
  absolute time difference, with the first one winning ties
  (`PriceScreen.GetCurrentDataPoint`). The alert check instead uses the
  last sample already started (`NotificationService.GetCurrentPrice`).
  `PriceScreen.NearestDiffersFromAlertPrice` exhibits an input where the two
  prices differ.
- The code evaluates rules in their stored order, and the scheduled
  notifications follow that order (`NotificationService.CheckAppend`); the
  model follows the code here rather than treating the order as
  unobservable. Thresholds are meant to be finite and positive, but the form
  accepts any `parseFloat` result above zero, `Infinity` included, which
  this model does not represent (see below). The background task fetches
  only today's prices, while the screen fetches today's and tomorrow's.

Files: `options.dfy` (Option, Result), `decimal.dfy` (decimal rendering and
`padStart`), `notification_store.dfy`, `notification_service.dfy`,
`background_task.dfy`, `price_screen.dfy`, `settings_screen.dfy`.

## Model

| member | source | states |
|---|---|---|
| NotificationStore.Initial | lib/notificationStore.ts:26-27 | the store starts with no rules and alerts switched off |
| NotificationStore.SetNotificationsEnabled | lib/notificationStore.ts:29-31 | the flag takes the given value and the rule list is unchanged |
| NotificationStore.AddNotification | lib/notificationStore.ts:33-38 | exactly one record is appended, carrying the draft's fields and the fresh id; earlier records and the flag are unchanged |
| NotificationStore.UpdateAll | lib/notificationStore.ts:42-44 | length and order kept; non-matching records unchanged; matching records become the patched record |
| NotificationStore.UpdateNotification | lib/notificationStore.ts:40-46 | for each matching record every field present in the patch wins and every absent field is kept; other records and the flag are unchanged |
| NotificationStore.RemoveAll | lib/notificationStore.ts:50 | a record survives iff it was there and its id differs; the length drops by the number of matching records |
| NotificationStore.RemoveNotification | lib/notificationStore.ts:48-52 | the surviving records are exactly those whose id differs; the flag is unchanged |
| NotificationStore.ToggleAll | lib/notificationStore.ts:56-60 | length kept; id, kind and price kept; `enabled` changes exactly on matching records |
| NotificationStore.ToggleNotification | lib/notificationStore.ts:54-62 | as ToggleAll, lifted to the store, with the flag unchanged |
| NotificationStore.CountId | lib/notificationStore.ts:50 | the number of records carrying an id is zero iff the id is unused |
| NotificationStore.RemoveAppend | lib/notificationStore.ts:50 | removal distributes over concatenation, so survivors keep their original order |
| NotificationStore.RemoveUnknownId | lib/notificationStore.ts:48-52 | removing an unused id is a no-op |
| NotificationStore.RemoveIdempotent | lib/notificationStore.ts:48-52 | removing twice equals removing once |
| NotificationStore.AddThenRemove | lib/notificationStore.ts:33-52 | adding under a fresh id and then removing that id restores the store |
| NotificationStore.ToggleTwice | lib/notificationStore.ts:54-62 | toggling the same id twice is the identity |
| NotificationStore.UpdateUnknownId | lib/notificationStore.ts:40-46 | updating an unused id is a no-op |
| NotificationStore.UpdateIdempotent | lib/notificationStore.ts:40-46 | applying any patch twice equals applying it once |
| NotificationStore.ToggleIsPointwiseUpdate | lib/notificationStore.ts:40-62 | on a matching record, toggling equals updating with the negated `enabled` |
| NotificationStore.AddKeepsUnique | lib/notificationStore.ts:33-38 | adding under an unused id keeps ids unique |
| NotificationStore.RemoveKeepsUnique | lib/notificationStore.ts:48-52 | removal keeps ids unique |
| NotificationStore.ToggleKeepsUnique | lib/notificationStore.ts:54-62 | toggling keeps ids unique |
| NotificationStore.UpdateKeepsUnique | lib/notificationStore.ts:40-46 | an update that keeps the id keeps ids unique |
| NotificationService.LeadingRun | lib/notificationService.ts:93-98 | the length of the longest prefix dated at or before `now`: every sample inside it is dated at or before `now`, the next one is later |
| NotificationService.LeadingRunUnique | lib/notificationService.ts:93-98 | those three facts determine the prefix length |
| NotificationService.Scan | lib/notificationService.ts:91-99 | the loop's result is the last value of the leading run, or the initial value when the run is empty |
| NotificationService.GetCurrentPrice | lib/notificationService.ts:84-102 | null on an empty history and when the first sample is in the future; otherwise null iff the leading run is empty, and else that run's last value |
| NotificationService.AllPastGivesLast | lib/notificationService.ts:93-101 | when every sample is dated at or before `now`, the result is the last sample's value |
| NotificationService.IgnoresAfterFuture | lib/notificationService.ts:94-98 | whatever follows a future sample can be replaced without changing the result |
| NotificationService.SortedGivesLatestPast | lib/notificationService.ts:89-101 | on an ascending series the result is present iff some sample is dated at or before `now`, and is then the latest such sample's value |
| NotificationService.MiddleSampleExample | lib/notificationService.ts:93-101 | for samples 10, 20, 30 at three quarter-hours, at the middle instant the price is 20 |
| NotificationService.RuleIntent | lib/notificationService.ts:45-61 | a rule asks for a notification iff it is enabled and its strict comparison holds; the title matches its kind and the body carries its threshold and the price |
| NotificationService.Emit | lib/notificationService.ts:44-66 | every notification is the one some rule asks for, and every enabled rule whose strict comparison holds has its notification in the result |
| NotificationService.Firing | lib/notificationService.ts:44-66 | the positions of the firing rules, strictly increasing: a position is listed iff that rule is enabled and its comparison holds |
| NotificationService.CheckPriceThresholds | lib/notificationService.ts:37-67 | nothing when the global flag is off; otherwise every notification comes from some rule and every firing rule's notification is present |
| NotificationService.CheckFollowsFiring | lib/notificationService.ts:44-66 | with the flag on, the notifications are exactly one per firing rule, in rule order |
| NotificationService.EmitFollowsFiring | lib/notificationService.ts:44-66 | the k-th notification is the one the k-th firing rule asks for, and there are as many as firing rules |
| NotificationService.FiringStep | lib/notificationService.ts:44-66 | the correspondence with the firing positions extends from the rules after the first to the whole list |
| NotificationService.ShiftedStep | lib/notificationService.ts:44-66 | a notification put in front of the later rules' notifications, with their positions shifted by one, still matches rule for rule |
| NotificationService.CheckAppend | lib/notificationService.ts:44-66 | evaluating a concatenation of rule lists concatenates their notifications, so they follow rule order |
| NotificationService.SingleRule | lib/notificationService.ts:53-61 | one enabled "above" rule gives the high-price title iff price > threshold, and one "below" rule gives the low-price title iff price < threshold |
| NotificationService.EqualityNeverFires | lib/notificationService.ts:53-61 | a price equal to the threshold fires no rule of either kind |
| NotificationService.DisabledRuleSilent | lib/notificationService.ts:45-47 | inserting a disabled rule anywhere changes nothing, even when its condition holds |
| NotificationService.BothKindsFireExample | lib/notificationService.ts:44-66 | at 50, rules "above 10" and "below 100" both fire, in rule order |
| NotificationService.AlertsFor | lib/backgroundTask.ts:51-56 | no notification when the flag is off or no current price exists; every notification carries the resolved price and comes from a stored rule; with the flag on and a resolved price, every stored rule crossing that price is notified |
| BackgroundTask.RunTask | lib/backgroundTask.ts:9-63 | flag off: NoData without fetching or evaluating; fetch, status or JSON failure: Failed; missing or empty data: NoData; otherwise NewData with the rules checked against the resolved price |
| BackgroundTask.ResultClassification | lib/backgroundTask.ts:13-62 | each result has exactly one cause, and notifications only come with NewData |
| BackgroundTask.NewDataWithoutCurrentPrice | lib/backgroundTask.ts:51-58 | NewData is reported even when no current price exists, and nothing is sent then |
| BackgroundTask.RegisterBackgroundTask | lib/backgroundTask.ts:65-88 | already registered: true without registering again; a failed query: false; otherwise true iff the registration call succeeded |
| BackgroundTask.RegisterReturnsRegistered | lib/backgroundTask.ts:65-88 | the returned flag is true iff the query answered and the task is registered afterwards |
| BackgroundTask.RegisterIdempotent | lib/backgroundTask.ts:68-73 | after a successful registration, registering again returns true without a second registration |
| BackgroundTask.UnregisterBackgroundTask | lib/backgroundTask.ts:90-101 | never registers; the task ends unregistered iff it was not registered or both calls succeeded |
| BackgroundTask.GetBackgroundFetchStatus | lib/backgroundTask.ts:103-121 | Available, Denied and Restricted map to their own names; any other status to "Unknown"; a thrown query to "Error" |
| BackgroundTask.StatusTextDistinguishes | lib/backgroundTask.ts:107-120 | equal texts come from the same named status, and "Error" only from a thrown query |
| Decimal.NatToString | app/index.tsx:16-17 | the decimal rendering is all digits, one digit iff below 10, at most two iff below 100; `NatToStringNoLeadingZero` adds that it has no leading zero |
| Decimal.NatToStringNoLeadingZero | app/index.tsx:16-17 | a positive number's rendering does not start with "0", so the text is the canonical one |
| Decimal.ParseNatToString | app/index.tsx:16-17 | the rendering reads back as the number |
| Decimal.ParseLeadingZero | app/index.tsx:16-17 | a leading zero does not change the value read back |
| Decimal.PadStart2 | app/index.tsx:16-17 | texts of two or more characters are unchanged; shorter ones become two characters, zeros in front of the original |
| Decimal.TwoDigits | app/index.tsx:16-17 | a number below 100, padded, is two digits that read back as the number |
| PriceScreen.FormatDate | app/index.tsx:14-19 | the text length is the year's digits plus the two padded fields plus two separators |
| PriceScreen.FormatDateReadsBack | app/index.tsx:14-19 | for calendar values the text is `<year>-MM-DD`: dashes at fixed places, the month field reads back as month index + 1, the day field as the day |
| PriceScreen.Label | app/index.tsx:87-92 | a point gets a label iff its minute is 0 or 30 |
| PriceScreen.LabelShape | app/index.tsx:90-92 | a label is five characters: the two-digit hour, a colon, then "00" or "30" |
| PriceScreen.FormatData | app/index.tsx:85-95 | one point per record in order, with its price and instant, labelled iff on the hour or half hour, and the label is the `HH:MM` text `Label` builds |
| PriceScreen.LoadPrices | app/index.tsx:57-83 | a rejected fetch gives its message; otherwise the no-data error iff neither day contributed a record, and else today's points followed by tomorrow's |
| PriceScreen.FetchElectricityPrices | app/index.tsx:36-114 | on error the history stays empty, nothing is sent, and the load's own message is shown; on success the history is shown and its current price is checked against the rules |
| PriceScreen.MinPrice | app/index.tsx:131 | 0 on an empty history; otherwise a price of the history that is at most every price |
| PriceScreen.MaxPrice | app/index.tsx:132 | 0 on an empty history; otherwise a price of the history that is at least every price |
| PriceScreen.GetCurrentDataPoint | app/index.tsx:134-155 | null iff the history is empty; otherwise a position at least distance from `now`, strictly nearer than every earlier position, with that point's price |
| PriceScreen.NearestUnique | app/index.tsx:141-147 | the nearest position, first on ties, is unique |
| PriceScreen.NearestDiffersFromAlertPrice | app/index.tsx:141-147 | an input where the screen's nearest price differs from the price the alert check uses |
| PriceScreen.ReadoutOf | app/index.tsx:157-159 | price 0 and index -1 without a current point; otherwise the point's price and index |
| PriceScreen.KeepFrom | app/index.tsx:162-165 | keeping positions from a start index leaves exactly the suffix from that index |
| PriceScreen.FilteredPriceHistory | app/index.tsx:161-165 | index -1 keeps everything; otherwise exactly the points from max(0, index - 3) on |
| PriceScreen.WindowHoldsCurrent | app/index.tsx:161-165 | for a valid index the window holds the current point, preceded by min(index, 3) points |
| PriceScreen.FindIndexByDate | app/index.tsx:169 | the first position with that instant, or -1 when there is none |
| PriceScreen.ChartData | app/index.tsx:167-184 | the window's points in order, each marked iff the first position of its instant in the full history is the current index |
| PriceScreen.MarkerOnCurrentOnly | app/index.tsx:167-184 | with distinct instants, exactly the current point of the window is marked |
| PriceScreen.FoundAtOwnPosition | app/index.tsx:169 | with distinct instants, looking up a point's instant finds that point's own position |
| PriceScreen.MarkedAtOwnPosition | app/index.tsx:167-184 | with distinct instants, a point of a suffix is marked iff its own position is the current index |
| PriceScreen.NoMarkerWithoutCurrent | app/index.tsx:163-170 | with integer instants every date of the window is found at some position, so a current index of -1 marks no point |
| PriceScreen.SharedInstantMarksBoth | app/index.tsx:167-184 | two points sharing the current instant are both marked |
| SettingsScreen.HandleToggleNotifications | app/settings.tsx:45-82 | off: unregister, flag false, status refreshed; on with permission: register, flag true either way, with the failure dialog when registration failed; on with permission refused: only the permission dialog; on with a permission request that throws: nothing changes |
| SettingsScreen.ToggleOutcome | app/settings.tsx:45-82 | the flag ends at the requested value, except that a refused or failed permission request leaves it unchanged |
| SettingsScreen.OffThenOnReregisters | app/settings.tsx:45-82 | switching off and on again, with every call succeeding, ends enabled and registered |
| SettingsScreen.HandleAddThreshold | app/settings.tsx:84-99 | NaN or a price at most 0: only the invalid-price dialog; otherwise the rule is added with the chosen type, the parsed price and enabled set, the price text is cleared and the form closed, and nothing else changes |
| SettingsScreen.AddedRulesArePositive | app/settings.tsx:84-95 | if every stored price is positive, that stays true; the store grows iff the price was accepted; the new rule is enabled, with the chosen kind and price |

## Left out

- Rendering and navigation: JSX, the chart, styling, the splash screen, layout sizes and `app/_layout.tsx` are pure UI.
- Network I/O: `fetch`, JSON parsing and the feed URLs. The model takes each fetch as its outcome. The date text in the URLs is modelled (`FormatDate`); joining it to the URL is not.
- JSON bodies that are not arrays of price records are not modelled. `concat` would append such a body as one element, and `map` would then meet a record without the expected fields.
- Notification platform APIs: `setNotificationHandler`, the permission prompt and its Android channel, and `scheduleNotificationAsync` with its caught error. How the permission request ends (granted, refused, or rejected by one of its uncaught platform calls) is an input.
- The test-notification button and the confirmation dialog in front of `removeNotification`: both are platform dialogs. The removal itself is `RemoveNotification`.
- Task manager side effects: registration options (15-minute interval, boot start) are not modelled. Only whether the task is registered is tracked.
- `lib/storage.ts` and the zustand `persist` middleware: persistence and JSON serialisation are not part of this model.
- The clock and time zones: `new Date()`, `setDate(+1)` and the local-time getters. The time is `now`, and each record carries its local hour and minute.
- Floating point: `toFixed(2)` and `parseFloat` are left out. Notification bodies keep their two numbers, and the form's parsed price is an input.
- The random id drawn by `addNotification` is left out: the fresh id is a parameter.
- Async ordering and concurrency, including the fire-and-forget scheduling promises. The task and `checkPriceThresholds` read the store twice; the model assumes both reads see the same state.
- HandleAddThreshold: does not model `parseFloat` returning `Infinity` (which the code accepts as a price above 0), because prices are `real`.
- GetCurrentDataPoint: does not model invalid dates. With NaN timestamps no comparison succeeds, and the source returns null for a non-empty history; here timestamps are integers, so the result is null only on an empty history.
- NoMarkerWithoutCurrent: holds for integer instants only. In the program a non-empty history has no current point only when every date is invalid; then the date lookup never matches, returns -1, equals the current index -1, and every point gets the marker. Invalid dates are not modelled.
- FormatDate: the year is a natural number; years before year 0 are not modelled, because the date comes from the current clock.
- UpdateNotification: a patch key that is present but `undefined` would overwrite the field with `undefined`; the model only has present or absent fields.
- ChartData: the marker's colour, thickness and label component are reduced to one flag.
