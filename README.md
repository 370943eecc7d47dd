# App Lock: a verified model of its PIN, lockout and storage logic

App Lock is a React Native app that hides a catalogue of installed apps behind a
six-digit PIN. Its persistent state is five records in the device's key-value
store:
- the app list with each app's lock flag;
- the intruder log;
- the authentication record;
- the security settings;
- a global "all apps locked" flag.

The screens over that state are:
- the PIN lock screen, with an escalating lockout;
- the PIN setup and change screen;
- the protected-apps list, with search and "lock all";
- the global lock toggle;
- the settings screen.

This project models that core in Dafny and proves what the app promises about
it.

Modules and files:

- `common.dfy` (`Common`): the JavaScript operations the app relies on.
  - `Number.toString` is `Decimal` and `IntToString`.
  - `String.includes` is `Includes`, lower-casing is `Lower`, and `Array.filter` is `Filter`.
  - Each comes with its meaning: `Decimal` reads back as its number, `Includes` is "occurs at some index", and `Filter` keeps exactly the passing elements in order.
- `types.dfy` (`AppTypes`): the records of `client/types/app.ts`.
- `storage.dfy` (`Storage`): the key-value store, as the class `Store` over a map from the five keys to parsed values.
  - Each storage function is a method on it, specified by pure read functions (`CurrentApps`, `ReadAuthConfig`, `ReadSecuritySettings`, …) and pure update functions (`WithLockStatus`, `WithAllLocked`, `PrependCapped`).
  - The lemmas cover PIN verification after setup, the 50-record log cap, the settings defaults and merge, and the round trips.
- `auth_lock.dfy` (`AuthLock`): the lock screen.
  - Its state is the value `LockState`, with one transition function per handler and `Run` over a sequence of inputs (keys, delete, biometric attempts, elapsed seconds).
  - The class `LockScreen` holds the same fields and updates them step by step. Each of its handlers is proved equal to the matching transition function, including its effect on the store.
  - The lemmas cover the reachable-state invariant, the lockout rule and its duration schedule, the countdown, and a worked escalation from the first wrong PIN to the second lockout.
- `auth_setup.dfy` (`AuthSetup`): the setup and change-PIN step machine, as the class `SetupScreen`. Only a matching confirmation writes the new PIN.
- `protected_apps.dfy` (`ProtectedApps`): search, the locked and unlocked sections, and the lock-all button and per-app toggle.
- `lock_toggle.dfy` (`LockToggle`): the biometric-gated global toggle (class `LockToggleScreen`), the locked-app count and its text.
- `settings_screen.dfy` (`Settings`): the lock-timeout labels, single-field updates of the settings, the timeout choices, and the recovery-email guard (class `SettingsScreen`).

Asynchronous steps are folded into the handler that starts them:
- a storage call and the `await` on it;
- the 100 ms delay before a PIN is checked;
- the 500 ms delay before the buffer is cleared.

The platform's answers become parameters of the handler that asks for them: whether it runs on web, whether biometric hardware is present and enrolled, and whether the biometric prompt succeeded. The clock reading `Date.now()` is also a parameter.

The lockout rule is modelled as the code has it:
- `client/screens/AuthLockScreen.tsx:83` locks on every failure once the count reaches five, not only on every fifth.
- Expiry never resets the count, so the sixth and later failures each lock again.
- `FailureRule` and `EscalationScenario` state this.

## Model

| member | source | states |
|---|---|---|
| Common.Decimal | client/lib/storage.ts:82 | `n.toString()` for a natural number below 10^21: a non-empty digit string with no leading zero whose decimal value is `n` |
| Common.IntToString | client/screens/SettingsScreen.tsx:59 | `${t}` for an integer of magnitude below 10^21: a minus sign before the decimal spelling of `-t` for negatives, the decimal spelling otherwise |
| Common.IntToStringInjective | client/screens/SettingsScreen.tsx:59 | different integers are spelled differently |
| Common.PadTwo | client/screens/AuthLockScreen.tsx:147 | `padStart(2, "0")` leaves a string of two or more characters alone and otherwise puts zeros in front up to length two |
| Common.Lower | client/screens/ProtectedAppsScreen.tsx:64 | lower-casing keeps the length, leaves no upper-case ASCII letter, and keeps every other character |
| Common.Includes | client/screens/ProtectedAppsScreen.tsx:67-68 | `s.includes(q)` holds exactly when `q` occurs in `s` at some index |
| Common.Filter | client/screens/ProtectedAppsScreen.tsx:73 | `filter` returns a list no longer than the input whose every element passes the test |
| Common.FilterMembership | client/screens/ProtectedAppsScreen.tsx:73 | a value is in the filtered list exactly when it is in the input and passes the test |
| Common.FilterAppend | client/screens/ProtectedAppsScreen.tsx:73 | filtering a concatenation concatenates the filtered parts, so order is kept |
| Common.FilterSplit | client/screens/ProtectedAppsScreen.tsx:72-80 | filtering by a test and by its negation puts every element of the input in exactly one of the two results |
| Common.FilterAll | client/screens/ProtectedAppsScreen.tsx:73 | when every element passes, the filter returns the input unchanged |
| Storage.PinAccepted | client/lib/storage.ts:126-130 | verifyPin accepts exactly when a record exists, its stored PIN is non-empty and equals the entered PIN |
| Storage.WithLockStatus | client/lib/storage.ts:42-44 | the list keeps its length; entries with the given id get the new lock flag; every other field and every other entry is unchanged |
| Storage.WithAllLocked | client/lib/storage.ts:51 | same length, every entry has the requested lock flag, every other field unchanged |
| Storage.PrependCapped | client/lib/storage.ts:84-85 | the new record comes first, followed by the old records in order, cut to at most 50 |
| Storage.VerifyAfterSetup | client/lib/storage.ts:132-140 | after setupPin(p), verifyPin(q) holds exactly when p is non-empty and q equals p |
| Storage.VerifyFailsClosed | client/lib/storage.ts:127-128 | with no readable authentication record every PIN is refused |
| Storage.ClearIsIdempotent | client/lib/storage.ts:88-90 | clearing leaves an empty log and clearing twice equals clearing once |
| Storage.AddedLogIsBounded | client/lib/storage.ts:78-86 | after any insert the log holds at most 50 records with the new one first |
| Storage.IsAllLockedRoundTrip | client/lib/storage.ts:56-67 | the global flag reads back as the value written, and as false when never written |
| Storage.SettingsDefaultWhenAbsent | client/lib/storage.ts:105-120 | with no readable settings the defaults are returned (screenshot prevention, root detection, intruder detection on; uninstall protection off; timeout 0; no email) |
| Storage.Merge | client/lib/storage.ts:116 | each stored field overrides its default and each missing field keeps the default |
| Storage.SettingsRoundTrip | client/lib/storage.ts:105-124 | saving settings and reading them back returns the same settings |
| Storage.LockAllIdempotent | client/lib/storage.ts:49-54 | locking (or unlocking) every app twice equals doing it once |
| Storage.LockStatusIdempotent | client/lib/storage.ts:40-47 | setting one app's status twice equals setting it once |
| Storage.Store.GetLockedApps | client/lib/storage.ts:27-38 | returns the stored list, else the 12-app catalogue; writes the catalogue only into an empty slot, never over an unparsable value |
| Storage.Store.UpdateAppLockStatus | client/lib/storage.ts:40-47 | stores and returns the current list with the given app's flag replaced |
| Storage.Store.LockAllApps | client/lib/storage.ts:49-54 | stores and returns the current list with every flag set to the requested value |
| Storage.Store.GetIsAllLocked | client/lib/storage.ts:56-63 | true exactly when the stored text is "true" |
| Storage.Store.SetIsAllLocked | client/lib/storage.ts:65-67 | writes "true" or "false" under the flag's key only, and the flag then reads back as written |
| Storage.Store.GetIntruderLogs | client/lib/storage.ts:69-76 | the stored log, or the empty log when absent or unparsable |
| Storage.Store.AddIntruderLog | client/lib/storage.ts:78-86 | prepends a record with the given fields and the clock's decimal spelling as id, keeps at most 50, touches no other key |
| Storage.Store.ClearIntruderLogs | client/lib/storage.ts:88-90 | the log key holds the empty list and nothing else changes |
| Storage.Store.GetAuthConfig | client/lib/storage.ts:92-99 | the stored record, or none when absent or unparsable |
| Storage.Store.SaveAuthConfig | client/lib/storage.ts:101-103 | replaces the authentication record only |
| Storage.Store.GetSecuritySettings | client/lib/storage.ts:105-120 | the defaults overridden by every stored field |
| Storage.Store.SaveSecuritySettings | client/lib/storage.ts:122-124 | replaces the settings record only, and it reads back as the settings saved |
| Storage.Store.VerifyPin | client/lib/storage.ts:126-130 | answers the fail-closed comparison against the stored record and changes nothing |
| Storage.Store.SetupPin | client/lib/storage.ts:132-140 | writes a completed PIN record with biometrics off; afterwards exactly the new PIN verifies, and none does if it was empty |
| AuthLock.LockDuration | client/screens/AuthLockScreen.tsx:90 | every lockout lasts between 30 seconds and one hour |
| AuthLock.LockDurationMonotone | client/screens/AuthLockScreen.tsx:90 | more failures never give a shorter lockout |
| AuthLock.LockDurationSchedule | client/screens/AuthLockScreen.tsx:90 | failures 5k to 5k+4 lock for 30·2^(k−1) seconds, capped at 3600 |
| AuthLock.LockDurationCap | client/screens/AuthLockScreen.tsx:90 | the one-hour cap applies exactly from the 40th failure on |
| AuthLock.Succeeded | client/screens/AuthLockScreen.tsx:68-75 | a success zeroes the failure count, hiding the attempts hint, and changes nothing else |
| AuthLock.Failed | client/screens/AuthLockScreen.tsx:77-99 | a failure adds one to the count and leaves an empty buffer with no error; from the fifth failure on it locks for 30 seconds to an hour, below five it leaves the lock state alone |
| AuthLock.Pressed | client/screens/AuthLockScreen.tsx:101-121 | a locked screen or full buffer ignores the key; a key short of six is appended; only an accepted PIN lowers the count, to zero; a key locks the screen only once five failures are counted |
| AuthLock.Deleted | client/screens/AuthLockScreen.tsx:123-128 | unless locked, the buffer becomes its own prefix one digit shorter (empty stays empty) and the error clears; nothing else changes |
| AuthLock.Ticked | client/screens/AuthLockScreen.tsx:46-55 | a second lowers a running countdown by one, and the lock holds afterwards exactly when it held before and time remains; nothing else changes |
| AuthLock.BiometricResult | client/screens/AuthLockScreen.tsx:130-142 | on web, while locked or after a failed check nothing changes; a successful check zeroes the count and changes nothing else |
| AuthLock.StepPreservesInv | client/screens/AuthLockScreen.tsx:46-142 | every input keeps the buffer at six digits or fewer, the countdown at most an hour, the screen locked exactly while the countdown runs, and a lock only with five or more failures and an empty buffer |
| AuthLock.RunPreservesInv | client/screens/AuthLockScreen.tsx:46-142 | the same invariant holds after any sequence of inputs |
| AuthLock.RunAppend | client/screens/AuthLockScreen.tsx:46-142 | running two input sequences one after the other equals running their concatenation |
| AuthLock.LockedIgnoresInput | client/screens/AuthLockScreen.tsx:101-142 | while locked, keys, delete and biometric attempts leave the state exactly as it was |
| AuthLock.FailureRule | client/screens/AuthLockScreen.tsx:77-99 | a failure adds one to the count and clears the buffer; it locks exactly when the new count is five or more, for LockDuration of that count |
| AuthLock.SuccessResets | client/screens/AuthLockScreen.tsx:68-75 | a sixth digit completing an accepted PIN leaves the screen unlocked with the failure count at zero |
| AuthLock.TypeDigits | client/screens/AuthLockScreen.tsx:101-107 | digits typed into an unlocked buffer that stays below six are appended in order |
| AuthLock.EnterPin | client/screens/AuthLockScreen.tsx:101-121 | six digits typed from an empty unlocked buffer verify exactly those six digits |
| AuthLock.CountDown | client/screens/AuthLockScreen.tsx:46-51 | each of the first L−1 seconds of an L-second lockout lowers the countdown by one and changes nothing else |
| AuthLock.LockExpires | client/screens/AuthLockScreen.tsx:46-55 | an L-second lockout still holds after L−1 seconds and is lifted by the L-th, which keeps the failure count |
| AuthLock.WrongEntry | client/screens/AuthLockScreen.tsx:101-121 | a wrong six-digit PIN typed on an idle unlocked screen counts exactly one failure |
| AuthLock.WrongEntries | client/screens/AuthLockScreen.tsx:77-99 | up to four wrong PINs from the start count that many failures and leave the screen unlocked |
| AuthLock.FifthFailureLocks | client/screens/AuthLockScreen.tsx:83-92 | the fifth wrong PIN in a row locks the screen for 30 seconds |
| AuthLock.FirstLockoutExpires | client/screens/AuthLockScreen.tsx:46-55 | 30 seconds after the fifth failure the screen is unlocked with the count still at five |
| AuthLock.EscalationScenario | client/screens/AuthLockScreen.tsx:77-99 | four wrong PINs leave one attempt; the fifth locks for 30 s; after it expires a sixth wrong PIN locks again with the count at 6 |
| AuthLock.AttemptsRemaining | client/screens/AuthLockScreen.tsx:181-185 | the hint shows exactly between the first and the fifth failure, and the number shown plus the failures is five |
| AuthLock.FormatLockTime | client/screens/AuthLockScreen.tsx:144-148 | the text ends in a colon and exactly two digits of seconds |
| AuthLock.FormatLockTimeReadsBack | client/screens/AuthLockScreen.tsx:144-148 | the text is minutes, a colon and two digits of seconds below 60, which together make up the original seconds |
| AuthLock.LockScreen.constructor | client/screens/AuthLockScreen.tsx:30-35 | empty buffer, no error, no failures, unlocked, no countdown, biometrics unavailable |
| AuthLock.LockScreen.CheckBiometric | client/screens/AuthLockScreen.tsx:57-66 | biometrics are available exactly off web with hardware present and enrolled |
| AuthLock.LockScreen.HandleSuccess | client/screens/AuthLockScreen.tsx:68-75 | resets the failure count and nothing else |
| AuthLock.LockScreen.HandleFailure | client/screens/AuthLockScreen.tsx:77-99 | moves to the failure state, leaving biometric availability alone; writes an intruder record with the new count exactly when it is five or more; touches the store otherwise not at all |
| AuthLock.LockScreen.KeyPress | client/screens/AuthLockScreen.tsx:101-121 | ignored when locked or full; buffered below six; on the sixth digit unlocks or rejects by verifyPin against the stored record, with the store effect of a failure; keeps the invariant and biometric availability |
| AuthLock.LockScreen.Delete | client/screens/AuthLockScreen.tsx:123-128 | drops the last digit and the error unless locked, and may change nothing else |
| AuthLock.LockScreen.Biometric | client/screens/AuthLockScreen.tsx:130-142 | unlocks exactly off web, unlocked and on a successful check, changing only the failure count; otherwise nothing changes |
| AuthLock.LockScreen.Tick | client/screens/AuthLockScreen.tsx:46-55 | the timer's decrement followed by the effect run it triggers: counts down by one second and lifts the lock in the same step when zero is reached; only the countdown and the lock may change |
| AuthSetup.InitialStep | client/screens/AuthSetupScreen.tsx:31-34 | the current PIN is asked for exactly in change mode; setup starts at entering the new PIN |
| AuthSetup.NeedsSetup | client/navigation/RootStackNavigator.tsx:40 | the setup screen is shown exactly when no record exists or setup is not complete |
| AuthSetup.SetupCompletes | client/lib/storage.ts:132-140 | once setupPin has run the app no longer asks for setup |
| AuthSetup.SetupScreen.constructor | client/screens/AuthSetupScreen.tsx:31-37 | both buffers empty, no error, first step by mode |
| AuthSetup.SetupScreen.KeyPress | client/screens/AuthSetupScreen.tsx:63-118 | a full buffer ignores the key; a current PIN advances only if it verifies; a new PIN moves to confirmation; a confirmation commits exactly when it matches and otherwise restarts entry; only a commit writes, and it writes the new PIN |
| AuthSetup.SetupScreen.Delete | client/screens/AuthSetupScreen.tsx:120-127 | shortens the buffer of the current step only and clears the error |
| AuthSetup.SetupScreen.GoBack | client/screens/AuthSetupScreen.tsx:162-175 | from confirmation back to entry, keeping the new PIN and discarding the confirmation |
| ProtectedApps.FilteredApps | client/screens/ProtectedAppsScreen.tsx:62-70 | an empty query shows every app; a search never adds apps |
| ProtectedApps.SearchMembership | client/screens/ProtectedAppsScreen.tsx:62-70 | a non-empty query keeps exactly the apps whose lower-cased name or category contains the lower-cased query |
| ProtectedApps.SearchKeepsOrder | client/screens/ProtectedAppsScreen.tsx:65-69 | searching keeps the list's order |
| ProtectedApps.SearchIgnoresQueryCase | client/screens/ProtectedAppsScreen.tsx:64 | a query and its lower-cased form select the same apps |
| ProtectedApps.LockedApps | client/screens/ProtectedAppsScreen.tsx:72-75 | the locked section holds only locked apps and is never longer than the list |
| ProtectedApps.UnlockedApps | client/screens/ProtectedAppsScreen.tsx:77-80 | the unlocked section holds only unlocked apps and is never longer than the list |
| ProtectedApps.Partition | client/screens/ProtectedAppsScreen.tsx:72-80 | the locked and unlocked sections together hold every listed app exactly once |
| ProtectedApps.SectionsDisjoint | client/screens/ProtectedAppsScreen.tsx:72-80 | an app is in the locked section exactly when listed and locked, in the unlocked one exactly when listed and unlocked |
| ProtectedApps.SectionsKeepOrder | client/screens/ProtectedAppsScreen.tsx:72-80 | each section keeps the list's order |
| ProtectedApps.UnlockedSection | client/screens/ProtectedAppsScreen.tsx:58 | some app of the whole (unfiltered) list is unlocked exactly when the unlocked filter of that list is non-empty |
| ProtectedApps.LockAllTarget | client/screens/ProtectedAppsScreen.tsx:57-60 | lock-all asks to lock exactly when some app of the whole list is unlocked, whatever the search shows |
| ProtectedApps.FabLabel | client/screens/ProtectedAppsScreen.tsx:83 | the label is "Lock All" or "Unlock All", and "Lock All" exactly when a press locks |
| ProtectedApps.FabVisible | client/screens/ProtectedAppsScreen.tsx:189 | the button shows exactly when the whole list is non-empty, whatever the search shows |
| ProtectedApps.DisplayedUnlockedMeansLockAll | client/screens/ProtectedAppsScreen.tsx:72-83 | an unlocked app in the displayed (searched) section means the button reads "Lock All"; the converse does not hold, since the button looks at the whole list |
| ProtectedApps.FabMatchesList | client/screens/ProtectedAppsScreen.tsx:83 | over the whole list, the button reads "Lock All" exactly when some app is unlocked and "Unlock All" exactly when all are locked; it shows exactly when there are apps |
| ProtectedApps.LockAllOutcome | client/screens/ProtectedAppsScreen.tsx:57-60 | the button locks everything if any app was unlocked and unlocks everything otherwise; on a non-empty list its label then flips |
| ProtectedApps.HandleToggle | client/screens/ProtectedAppsScreen.tsx:50-55 | after toggling an app the stored list (the one updateAppLockStatus re-reads) has the same length, every app with that id has the requested status, and every app with another id is unchanged |
| LockToggle.LockedCount | client/screens/LockToggleScreen.tsx:41 | the count is at most the number of apps, and with the unlocked apps it makes up the list |
| LockToggle.LockedCountRange | client/screens/LockToggleScreen.tsx:41 | the count is at most the number of apps; zero exactly when none is locked; equal to the number of apps exactly when all are |
| LockToggle.LockedCountAfterLockAll | client/screens/LockToggleScreen.tsx:41 | after lock-all every app counts; after unlock-all none does |
| LockToggle.CountText | client/screens/LockToggleScreen.tsx:131 | the text is the count's spelling, " app", an "s" exactly when the count is not one, and " protected" |
| LockToggle.CountTextPlural | client/screens/LockToggleScreen.tsx:131 | the text begins with the count, which reads back as the number, and says "apps" exactly when the number is not one |
| LockToggle.LockToggleScreen.constructor | client/screens/LockToggleScreen.tsx:31-34 | the flag reads as false before the query resolves |
| LockToggle.LockToggleScreen.Refresh | client/screens/LockToggleScreen.tsx:31-34 | the cached flag is the stored flag |
| LockToggle.LockToggleScreen.Mutate | client/screens/LockToggleScreen.tsx:43-59 | persists the flag, then caches it; cache and store agree |
| LockToggle.LockToggleScreen.Toggle | client/screens/LockToggleScreen.tsx:68-90 | toggles exactly on web, without enrolled biometrics, or after a successful check; a toggle writes the negation of the cached flag and leaves cache and store agreeing; otherwise nothing changes |
| Settings.LockTimeoutLabel | client/screens/SettingsScreen.tsx:54-60 | 0, 30, 60 and 300 get their fixed labels |
| Settings.OtherLabelShape | client/screens/SettingsScreen.tsx:59 | any other value is labelled by its decimal spelling followed by "s" |
| Settings.FixedLabelsAreOwn | client/screens/SettingsScreen.tsx:54-60 | no value outside 0, 30, 60 and 300 gets one of their fixed labels |
| Settings.OtherLabelsDistinct | client/screens/SettingsScreen.tsx:59 | two values outside the fixed four share a label only when equal |
| Settings.LabelsDistinct | client/screens/SettingsScreen.tsx:54-60 | two timeouts share a label exactly when they are equal |
| Settings.With | client/screens/SettingsScreen.tsx:49 | `{ ...settings, [key]: value }` has the new value in the named field and every other field unchanged |
| Settings.FieldsDetermine | client/screens/SettingsScreen.tsx:49 | settings with the same fields are the same settings |
| Settings.WithLaws | client/screens/SettingsScreen.tsx:49 | writing a field's own value changes nothing, and the later of two writes to a field wins |
| Settings.ChoicesAreFixed | client/screens/SettingsScreen.tsx:94-106 | only 0, 30, 60 and 300 can be chosen (Cancel chooses nothing), and each choice is labelled with its button's text |
| Settings.TimeoutRowShowsChoice | client/screens/SettingsScreen.tsx:135-141 | after a timeout button is pressed the row reads that button's text; while loading it reads "Immediately" |
| Settings.SetupDisablesBiometric | client/lib/storage.ts:132-140 | an empty store, and any store right after setupPin, has no record enabling biometrics |
| Settings.OtherWritesKeepNoBiometric | client/lib/storage.ts:40-124 | every write under another key than the authentication record keeps biometrics disabled |
| Settings.NoBiometricHidesKey | client/screens/AuthLockScreen.tsx:192 | while no stored record enables biometrics the keypad has no biometric key, whatever the device supports |
| Settings.NoBiometricKeyOnScreen | client/screens/AuthLockScreen.tsx:192 | a lock screen over such a store never shows the biometric key |
| Settings.SettingsScreen.constructor | client/screens/SettingsScreen.tsx:28-31 | no settings are cached before the query resolves |
| Settings.SettingsScreen.Load | client/screens/SettingsScreen.tsx:28-31 | the cache holds the stored settings |
| Settings.SettingsScreen.UpdateSetting | client/screens/SettingsScreen.tsx:45-52 | does nothing before the settings load; otherwise saves the cached settings with one field replaced, which then read back |
| Settings.SettingsScreen.ChooseLockTimeout | client/screens/SettingsScreen.tsx:94-106 | a timeout button stores its value, one of 0, 30, 60 or 300; Cancel or unloaded settings change nothing |
| Settings.SettingsScreen.SaveRecoveryEmail | client/screens/SettingsScreen.tsx:70-92 | the address is saved exactly off web, when non-empty and with the settings loaded; otherwise nothing changes |
| Settings.SettingsScreen.SetBiometricUnlock | client/screens/SettingsScreen.tsx:131-133 | the switch changes neither the store nor the cached settings |

## Left out

- Rendering, styling, animation, haptics and navigation calls are not modelled. Neither are `getTitle`/`getSubtitle`, the status and hint texts, or the clock display. They produce no state the core reads.
- The intruder-log screen (`IntruderLogsScreen.tsx`) and the keypad and dots components are not part of this model. The keypad only ever sends the digits 0 to 9 (`PinKeypad.tsx`), so the key handlers require a digit.
- Time is discrete:
  - the countdown is one `Tick` per elapsed second, and the effect run that the new `lockTime` triggers happens within that tick, so an L-second lockout is lifted by the L-th tick;
  - the 100 ms and 500 ms timers are folded into the handler that starts them, so no key can arrive between a sixth digit and its verdict;
  - a stale closure, such as a second failure computed from an outdated count, is not modelled.
- AuthLock.LockScreen.HandleFailure: the log's `timestamp` and its `id` come from one clock reading `now`. The source reads `Date.now()` twice, so the two may differ by a few milliseconds.
- AuthLock.LockScreen.KeyPress: the brief `error` flash after a wrong PIN is not kept; the state after the handler is the state once the 500 ms timer has cleared it.
- AuthSetup.SetupScreen.KeyPress: the mismatch alert is taken as acknowledged at once. After a commit the source leaves the screen; the model keeps the committed state.
- AuthSetup.SetupScreen.GoBack: requires the confirm step, the only step in which the link is rendered.
- JSON is not modelled as text. A stored value is its parsed record, or `Unparsable` when parsing fails or yields a record of another kind; every read then takes the `catch` or default branch. A value of another kind that parses successfully (a number where a list is expected) is treated as unparsable.
- Query caching is reduced to the screens' own cached fields (`isLocked`, `settings`). The refetch after a settings save is folded into the save. Invalidations of other screens' queries are not modelled.
- Lower-casing is ASCII only (`A`–`Z`); `toLowerCase` on other scripts is not modelled.
- `hasUnlockedApps` (`ProtectedAppsScreen.tsx:82`) is computed but never used, so it is not modelled.
- The Biometric Unlock switch's displayed value is not modelled; its handler does nothing, which `SetBiometricUnlock` states.
- Concurrency between screens sharing the store is not modelled; each handler runs to completion.
- Common.Decimal: JavaScript numbers are doubles. `toString` switches to exponent notation from 10^21 (`"1e+21"`), and integers above 2^53 are not all representable. The contract holds for integral values below 10^21 only.
- Common.IntToString: the same bound applies to negative values; non-integral timeouts are not modelled.
- Settings.LabelsDistinct: distinct labels are proved for unbounded integers; for JavaScript numbers this means integral timeouts of magnitude below 10^21.
- Storage writes are modelled as always succeeding. In the source a rejected `setItem` has other effects:
  - a rejected `setupPin` never reaches `onSuccess`, so nothing is committed and the setup screen stays (`AuthSetupScreen.tsx:39-46`);
  - a rejected `setIsAllLocked` leaves the cached flag unchanged (`LockToggleScreen.tsx:43-49`);
  - the un-awaited `addIntruderLog` in a failure rejects unhandled (`AuthLockScreen.tsx:84`).
- The biometric-key invariant (`NoBiometric`) is stated per write: `setupPin` is the only caller of `saveAuthConfig`, and every other write goes to another key. A store that already holds a record enabling biometrics, written by an older version of the app, is not excluded.
- While a search is active the displayed sections follow the search result, but the lock-all button, its label and its visibility follow the whole list (`ProtectedAppsScreen.tsx:58`, `:83`, `:189`). The model keeps this split; `DisplayedUnlockedMeansLockAll` states the one direction that holds.
