/** The settings screen (client/screens/SettingsScreen.tsx): the lock-timeout
    label, single-field updates of the security settings, the lock-timeout
    choices, the recovery-email prompt and the biometric switch. The screen
    keeps the fetched settings in `settings`; after a save the query is
    invalidated and fetched again, which the model folds into the save. */
module Settings {
  import opened Common
  import opened AppTypes
  import Storage
  import AuthLock

  /** getLockTimeoutLabel. */
  function LockTimeoutLabel(timeout: int): (text: string)
    ensures timeout == 0 ==> text == "Immediately"
    ensures timeout == 30 ==> text == "30 seconds"
    ensures timeout == 60 ==> text == "1 minute"
    ensures timeout == 300 ==> text == "5 minutes"
  {
    if timeout == 0 then "Immediately"
    else if timeout == 30 then "30 seconds"
    else if timeout == 60 then "1 minute"
    else if timeout == 300 then "5 minutes"
    else IntToString(timeout) + "s"
  }

  predicate FixedTimeout(t: int)
  {
    t == 0 || t == 30 || t == 60 || t == 300
  }

  /** A label for any other value is its decimal spelling and an "s": a sign or
      digits followed by the unit, with no space and no letter in front. */
  lemma {:induction false} OtherLabelShape(t: int)
    requires !FixedTimeout(t)
    ensures var text := LockTimeoutLabel(t);
      && text == IntToString(t) + "s"
      && forall i :: 0 <= i < |text| - 1 ==> text[i] != ' ' && text[i] != 'I'
  {
    var r := IntToString(t);
    if t < 0 {
      assert forall i :: 1 <= i < |r| ==> r[i] == Decimal(-t)[i - 1];
    }
  }

  /** A fixed label is never the label of another value. */
  lemma FixedLabelsAreOwn(a: int, b: int)
    requires FixedTimeout(a) && !FixedTimeout(b)
    ensures LockTimeoutLabel(a) != LockTimeoutLabel(b)
  {
    OtherLabelShape(b);
    var fixed := LockTimeoutLabel(a);
    assert fixed[0] == 'I' || fixed[1] == ' ' || fixed[2] == ' ';
  }

  /** Two values outside the fixed four share a label only when equal. */
  lemma OtherLabelsDistinct(a: int, b: int)
    requires !FixedTimeout(a) && !FixedTimeout(b)
    requires LockTimeoutLabel(a) == LockTimeoutLabel(b)
    ensures a == b
  {
    var text := LockTimeoutLabel(a);
    assert IntToString(a) == text[..|text| - 1];
    assert IntToString(b) == text[..|text| - 1];
    IntToStringInjective(a, b);
  }

  /** Different timeouts never share a label. */
  lemma LabelsDistinct(a: int, b: int)
    ensures LockTimeoutLabel(a) == LockTimeoutLabel(b) <==> a == b
  {
    if FixedTimeout(a) && !FixedTimeout(b) {
      FixedLabelsAreOwn(a, b);
    } else if FixedTimeout(b) && !FixedTimeout(a) {
      FixedLabelsAreOwn(b, a);
    } else if !FixedTimeout(a) && LockTimeoutLabel(a) == LockTimeoutLabel(b) {
      OtherLabelsDistinct(a, b);
    }
  }

  /** The fields of the settings record, by name. */
  datatype SettingKey =
    | ScreenshotPreventionKey
    | RootDetectionKey
    | UninstallProtectionKey
    | IntruderDetectionKey
    | LockTimeoutKey
    | RecoveryEmailKey

  datatype SettingValue = Flag(on: bool) | Seconds(t: int) | Email(address: Option<string>)

  /** The value has the type the field declares. */
  predicate Fits(key: SettingKey, value: SettingValue)
  {
    match key
    case LockTimeoutKey => value.Seconds?
    case RecoveryEmailKey => value.Email?
    case _ => value.Flag?
  }

  function Field(s: SecuritySettings, key: SettingKey): SettingValue
  {
    match key
    case ScreenshotPreventionKey => Flag(s.screenshotPrevention)
    case RootDetectionKey => Flag(s.rootDetection)
    case UninstallProtectionKey => Flag(s.uninstallProtection)
    case IntruderDetectionKey => Flag(s.intruderDetection)
    case LockTimeoutKey => Seconds(s.lockTimeout)
    case RecoveryEmailKey => Email(s.recoveryEmail)
  }

  /** Settings records with the same fields are the same record. */
  lemma FieldsDetermine(a: SecuritySettings, b: SecuritySettings)
    requires forall key :: Field(a, key) == Field(b, key)
    ensures a == b
  {
    assert Field(a, ScreenshotPreventionKey) == Field(b, ScreenshotPreventionKey);
    assert Field(a, RootDetectionKey) == Field(b, RootDetectionKey);
    assert Field(a, UninstallProtectionKey) == Field(b, UninstallProtectionKey);
    assert Field(a, IntruderDetectionKey) == Field(b, IntruderDetectionKey);
    assert Field(a, LockTimeoutKey) == Field(b, LockTimeoutKey);
    assert Field(a, RecoveryEmailKey) == Field(b, RecoveryEmailKey);
  }

  /** `{ ...settings, [key]: value }`: the named field takes the value and every
      other field keeps its own. */
  function With(s: SecuritySettings, key: SettingKey, value: SettingValue): (r: SecuritySettings)
    requires Fits(key, value)
    ensures Field(r, key) == value
    ensures forall other :: other != key ==> Field(r, other) == Field(s, other)
  {
    match key
    case ScreenshotPreventionKey => s.(screenshotPrevention := value.on)
    case RootDetectionKey => s.(rootDetection := value.on)
    case UninstallProtectionKey => s.(uninstallProtection := value.on)
    case IntruderDetectionKey => s.(intruderDetection := value.on)
    case LockTimeoutKey => s.(lockTimeout := value.t)
    case RecoveryEmailKey => s.(recoveryEmail := value.address)
  }

  /** Writing a field's current value changes nothing, and a second write to the
      same field replaces the first. */
  lemma WithLaws(s: SecuritySettings, key: SettingKey, v: SettingValue, w: SettingValue)
    requires Fits(key, v) && Fits(key, w)
    ensures With(s, key, Field(s, key)) == s
    ensures With(With(s, key, v), key, w) == With(s, key, w)
  {
    FieldsDetermine(With(s, key, Field(s, key)), s);
    FieldsDetermine(With(With(s, key, v), key, w), With(s, key, w));
  }

  /** The buttons of the lock-timeout alert. */
  datatype TimeoutChoice = ImmediatelyChoice | ThirtySecondsChoice | OneMinuteChoice | FiveMinutesChoice | CancelChoice

  function ChoiceText(c: TimeoutChoice): string
  {
    match c
    case ImmediatelyChoice => "Immediately"
    case ThirtySecondsChoice => "30 seconds"
    case OneMinuteChoice => "1 minute"
    case FiveMinutesChoice => "5 minutes"
    case CancelChoice => "Cancel"
  }

  /** The timeout a button writes; Cancel writes nothing. */
  function ChoiceTimeout(c: TimeoutChoice): Option<int>
  {
    match c
    case ImmediatelyChoice => Some(0)
    case ThirtySecondsChoice => Some(30)
    case OneMinuteChoice => Some(60)
    case FiveMinutesChoice => Some(300)
    case CancelChoice => None
  }

  /** Only 0, 30, 60 and 300 can be chosen, and each button then shows in the row
      under its own text. */
  lemma ChoicesAreFixed(c: TimeoutChoice)
    ensures ChoiceTimeout(c).Some? <==> !c.CancelChoice?
    ensures ChoiceTimeout(c).Some? ==>
      FixedTimeout(ChoiceTimeout(c).value) && LockTimeoutLabel(ChoiceTimeout(c).value) == ChoiceText(c)
  {
  }

  /** The lock-timeout row shows the stored value, or "Immediately" while the
      settings are loading. */
  function TimeoutRowText(settings: Option<SecuritySettings>): string
  {
    LockTimeoutLabel(if settings.Some? then settings.value.lockTimeout else 0)
  }

  /** After a timeout button is pressed the row shows that button's own text,
      and a row still loading reads "Immediately". */
  lemma TimeoutRowShowsChoice(s: SecuritySettings, c: TimeoutChoice)
    requires !c.CancelChoice?
    ensures TimeoutRowText(Some(With(s, LockTimeoutKey, Seconds(ChoiceTimeout(c).value)))) == ChoiceText(c)
    ensures TimeoutRowText(None) == "Immediately"
  {
    ChoicesAreFixed(c);
  }

  /** No stored authentication record enables biometrics. */
  predicate NoBiometric(m: Storage.Entries)
  {
    Storage.ReadAuthConfig(m).None? || !Storage.ReadAuthConfig(m).value.biometricEnabled
  }

  /** An empty store enables no biometrics, and neither does any store right
      after setupPin, the one writer of the authentication record. */
  lemma SetupDisablesBiometric(m: Storage.Entries, p: string)
    ensures NoBiometric(map[])
    ensures NoBiometric(m[Storage.AuthConfigKey := Storage.AuthRecord(Storage.SetupRecord(p))])
  {
  }

  /** A write under any other key (the app list, the intruder log, the settings,
      the global flag) keeps biometrics disabled. */
  lemma OtherWritesKeepNoBiometric(m: Storage.Entries, k: Storage.Key, v: Storage.Value)
    requires k != Storage.AuthConfigKey && NoBiometric(m)
    ensures NoBiometric(m[k := v])
  {
    assert Storage.ReadAuthConfig(m[k := v]) == Storage.ReadAuthConfig(m);
  }

  /** While biometrics are disabled in the store, the lock screen's keypad has
      no biometric key, whatever the device supports. */
  lemma NoBiometricHidesKey(m: Storage.Entries, available: bool)
    requires NoBiometric(m)
    ensures !AuthLock.BiometricKeyShown(available, Storage.ReadAuthConfig(m))
  {
  }

  /** The same, for a lock screen reading that store. */
  lemma NoBiometricKeyOnScreen(screen: AuthLock.LockScreen)
    requires NoBiometric(screen.store.entries)
    ensures !screen.ShowBiometric()
  {
    NoBiometricHidesKey(screen.store.entries, screen.biometricAvailable);
  }

  class SettingsScreen {
    const store: Storage.Store
    /** The cached result of the settings query; None until it has loaded. */
    var settings: Option<SecuritySettings>

    constructor (store: Storage.Store)
      ensures this.store == store && settings == None
    {
      this.store := store;
      settings := None;
    }

    /** The settings query's fetch. */
    method Load()
      modifies this`settings
      ensures settings == Some(Storage.ReadSecuritySettings(store.entries))
    {
      var s := store.GetSecuritySettings();
      settings := Some(s);
    }

    /** updateSetting: nothing before the settings have loaded; otherwise the
        current settings with one field replaced are saved and fetched back. */
    method UpdateSetting(key: SettingKey, value: SettingValue)
      requires Fits(key, value)
      modifies this`settings, store
      ensures old(settings).None? ==> settings == None && store.entries == old(store.entries)
      ensures old(settings).Some? ==>
        store.entries == old(store.entries)[Storage.SecuritySettingsKey :=
          Storage.SettingsRecord(Storage.Serialized(With(old(settings).value, key, value)))]
      ensures old(settings).Some? ==>
        settings == Some(With(old(settings).value, key, value)) &&
        Storage.ReadSecuritySettings(store.entries) == settings.value
    {
      if settings.Some? {
        store.SaveSecuritySettings(With(settings.value, key, value));
        Load();
      }
    }

    /** handleLockTimeout, with the button pressed: the stored timeout becomes one
        of the four fixed values, or nothing changes. */
    method ChooseLockTimeout(c: TimeoutChoice)
      modifies this`settings, store
      ensures c.CancelChoice? || old(settings).None? ==>
        settings == old(settings) && store.entries == old(store.entries)
      ensures !c.CancelChoice? && old(settings).Some? ==>
        settings == Some(With(old(settings).value, LockTimeoutKey, Seconds(ChoiceTimeout(c).value))) &&
        Storage.ReadSecuritySettings(store.entries) == settings.value &&
        FixedTimeout(settings.value.lockTimeout)
    {
      ChoicesAreFixed(c);
      var t := ChoiceTimeout(c);
      if t.Some? {
        UpdateSetting(LockTimeoutKey, Seconds(t.value));
      }
    }

    /** handleRecoveryEmail, with Save pressed on `email`. On web only an alert is
        shown. Otherwise the address is saved only when it is non-empty and the
        settings have loaded. */
    method SaveRecoveryEmail(isWeb: bool, email: string) returns (saved: bool)
      modifies this`settings, store
      ensures saved <==> !isWeb && email != [] && old(settings).Some?
      ensures !saved ==> settings == old(settings) && store.entries == old(store.entries)
      ensures saved ==>
        settings == Some(With(old(settings).value, RecoveryEmailKey, Email(Some(email)))) &&
        Storage.ReadSecuritySettings(store.entries).recoveryEmail == Some(email)
    {
      if isWeb {
        return false;
      }
      if email != [] && settings.Some? {
        UpdateSetting(RecoveryEmailKey, Email(Some(email)));
        return true;
      }
      return false;
    }

    /** The Biometric Unlock switch: its handler does nothing. */
    method SetBiometricUnlock(on: bool)
      ensures store.entries == old(store.entries) && settings == old(settings)
    {
    }
  }
}
