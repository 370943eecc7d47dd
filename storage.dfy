/** The persistence layer (client/lib/storage.ts): typed reads and writes over
    the device's key-value store. A stored value is modelled after JSON.parse;
    one that fails to parse (or that holds a record of another kind) is
    `Unparsable`, and every read treats it as the source's `catch` branch does. */
module Storage {
  import opened Common
  import opened AppTypes

  /** The five keys the app stores under, `@app_lock:locked_apps`,
      `@app_lock:intruder_logs`, `@app_lock:auth_config`,
      `@app_lock:security_settings` and `@app_lock:is_all_locked`. They are
      distinct strings, so a write under one never touches another. */
  datatype Key = LockedAppsKey | IntruderLogsKey | AuthConfigKey | SecuritySettingsKey | IsAllLockedKey

  /** How many intruder records are kept. */
  const MAX_INTRUDER_LOGS: nat := 50

  /** The content of one key, as JSON.parse would return it. */
  datatype Value =
    | AppList(apps: seq<AppInfo>)
    | LogList(logs: seq<IntruderLog>)
    | AuthRecord(config: AuthConfig)
    | SettingsRecord(fields: StoredSettings)
    | Text(text: string)
    | Unparsable

  type Entries = map<Key, Value>

  /** The built-in app catalogue used when nothing readable is stored. */
  const MOCK_APPS: seq<AppInfo> := [
      AppInfo("1", "Photos", "com.apple.photos", "image", false, "Media"),
      AppInfo("2", "Messages", "com.apple.messages", "message-circle", false, "Social"),
      AppInfo("3", "Mail", "com.apple.mail", "mail", false, "Productivity"),
      AppInfo("4", "Notes", "com.apple.notes", "file-text", false, "Productivity"),
      AppInfo("5", "Banking", "com.bank.app", "dollar-sign", false, "Finance"),
      AppInfo("6", "Instagram", "com.instagram.android", "camera", false, "Social"),
      AppInfo("7", "WhatsApp", "com.whatsapp", "phone", false, "Social"),
      AppInfo("8", "Twitter", "com.twitter.android", "twitter", false, "Social"),
      AppInfo("9", "Gallery", "com.gallery", "grid", false, "Media"),
      AppInfo("10", "Calendar", "com.apple.calendar", "calendar", false, "Productivity"),
      AppInfo("11", "Files", "com.apple.files", "folder", false, "Productivity"),
      AppInfo("12", "Settings", "com.apple.settings", "settings", false, "System")
    ]

  const DEFAULT_SETTINGS: SecuritySettings := SecuritySettings(true, true, false, true, 0, None)

  // ---------------------------------------------------------------------
  // Reading the store

  /** The app list getLockedApps hands back: the stored one, else the catalogue. */
  function CurrentApps(m: Entries): seq<AppInfo>
  {
    if LockedAppsKey in m && m[LockedAppsKey].AppList? then m[LockedAppsKey].apps else MOCK_APPS
  }

  /** A key whose stored text is missing or empty: the source's `if (stored)` fails. */
  predicate EmptySlot(m: Entries, k: Key)
  {
    k !in m || m[k] == Text("")
  }

  function ReadIntruderLogs(m: Entries): seq<IntruderLog>
  {
    if IntruderLogsKey in m && m[IntruderLogsKey].LogList? then m[IntruderLogsKey].logs else []
  }

  function ReadAuthConfig(m: Entries): Option<AuthConfig>
  {
    if AuthConfigKey in m && m[AuthConfigKey].AuthRecord? then Some(m[AuthConfigKey].config) else None
  }

  /** The stored flag counts as set only when it is exactly the text "true". */
  function ReadIsAllLocked(m: Entries): bool
  {
    IsAllLockedKey in m && m[IsAllLockedKey] == Text("true")
  }

  function FlagText(locked: bool): string
  {
    if locked then "true" else "false"
  }

  function GetOr<T>(o: Option<T>, default: T): T
  {
    if o.Some? then o.value else default
  }

  /** `{ ...defaults, ...stored }`: each stored field overrides its default and
      each missing field keeps it. */
  function Merge(d: SecuritySettings, s: StoredSettings): (r: SecuritySettings)
    ensures r.screenshotPrevention == if s.screenshotPrevention.Some? then s.screenshotPrevention.value else d.screenshotPrevention
    ensures r.rootDetection == if s.rootDetection.Some? then s.rootDetection.value else d.rootDetection
    ensures r.uninstallProtection == if s.uninstallProtection.Some? then s.uninstallProtection.value else d.uninstallProtection
    ensures r.intruderDetection == if s.intruderDetection.Some? then s.intruderDetection.value else d.intruderDetection
    ensures r.lockTimeout == if s.lockTimeout.Some? then s.lockTimeout.value else d.lockTimeout
    ensures r.recoveryEmail == if s.recoveryEmail.Some? then s.recoveryEmail else d.recoveryEmail
  {
    SecuritySettings(
      GetOr(s.screenshotPrevention, d.screenshotPrevention),
      GetOr(s.rootDetection, d.rootDetection),
      GetOr(s.uninstallProtection, d.uninstallProtection),
      GetOr(s.intruderDetection, d.intruderDetection),
      GetOr(s.lockTimeout, d.lockTimeout),
      if s.recoveryEmail.Some? then s.recoveryEmail else d.recoveryEmail)
  }

  /** What JSON.stringify followed by JSON.parse leaves of a settings object:
      every field, except an undefined recovery email, which is dropped. */
  function Serialized(s: SecuritySettings): StoredSettings
  {
    StoredSettings(
      Some(s.screenshotPrevention), Some(s.rootDetection), Some(s.uninstallProtection),
      Some(s.intruderDetection), Some(s.lockTimeout), s.recoveryEmail)
  }

  function ReadSecuritySettings(m: Entries): SecuritySettings
  {
    if SecuritySettingsKey in m && m[SecuritySettingsKey].SettingsRecord?
    then Merge(DEFAULT_SETTINGS, m[SecuritySettingsKey].fields)
    else DEFAULT_SETTINGS
  }

  // ---------------------------------------------------------------------
  // Pure parts of the operations

  /** verifyPin's decision: fails closed on a missing record, a missing PIN or an
      empty PIN, and otherwise compares the PIN exactly. */
  function PinAccepted(config: Option<AuthConfig>, pin: string): (ok: bool)
    ensures ok <==> config.Some? && config.value.pinHash == Some(pin) && pin != []
  {
    match config
    case None => false
    case Some(c) =>
      if c.pinHash.None? || c.pinHash.value == [] then false else c.pinHash.value == pin
  }

  /** The record setupPin writes. */
  function SetupRecord(pin: string): AuthConfig
  {
    AuthConfig(Pin, Some(pin), false, true)
  }

  /** `apps.map(app => app.id === appId ? { ...app, isLocked } : app)`. */
  function WithLockStatus(apps: seq<AppInfo>, appId: string, locked: bool): (r: seq<AppInfo>)
    ensures |r| == |apps|
    ensures forall i :: 0 <= i < |r| ==> r[i] == apps[i].(isLocked := r[i].isLocked)
    ensures forall i :: 0 <= i < |r| ==>
      r[i].isLocked == if apps[i].id == appId then locked else apps[i].isLocked
  {
    seq(|apps|, i requires 0 <= i < |apps| =>
      if apps[i].id == appId then apps[i].(isLocked := locked) else apps[i])
  }

  /** `apps.map(app => ({ ...app, isLocked: lock }))`. */
  function WithAllLocked(apps: seq<AppInfo>, locked: bool): (r: seq<AppInfo>)
    ensures |r| == |apps|
    ensures forall i :: 0 <= i < |r| ==> r[i].isLocked == locked
    ensures forall i :: 0 <= i < |r| ==> r[i] == apps[i].(isLocked := r[i].isLocked)
  {
    seq(|apps|, i requires 0 <= i < |apps| => apps[i].(isLocked := locked))
  }

  /** `logs.unshift(entry); logs.slice(0, 50)`: newest first, oldest dropped. */
  function PrependCapped(logs: seq<IntruderLog>, entry: IntruderLog): (r: seq<IntruderLog>)
    ensures |r| == Min(|logs| + 1, MAX_INTRUDER_LOGS)
    ensures r[0] == entry
    ensures forall i :: 1 <= i < |r| ==> r[i] == logs[i - 1]
  {
    ([entry] + logs)[..Min(|logs| + 1, MAX_INTRUDER_LOGS)]
  }

  // ---------------------------------------------------------------------
  // Properties of the reads and updates

  /** After setupPin(p), verifyPin(q) holds exactly when p is non-empty and q is p. */
  lemma VerifyAfterSetup(m: Entries, p: string, q: string)
    ensures PinAccepted(ReadAuthConfig(m[AuthConfigKey := AuthRecord(SetupRecord(p))]), q)
        <==> p != [] && q == p
  {
  }

  /** Without a readable record every PIN is refused. */
  lemma VerifyFailsClosed(m: Entries, q: string)
    requires AuthConfigKey !in m || !m[AuthConfigKey].AuthRecord?
    ensures !PinAccepted(ReadAuthConfig(m), q)
  {
  }

  /** Clearing leaves an empty log, and clearing again changes nothing. */
  lemma ClearIsIdempotent(m: Entries)
    ensures ReadIntruderLogs(m[IntruderLogsKey := LogList([])]) == []
    ensures m[IntruderLogsKey := LogList([])][IntruderLogsKey := LogList([])] == m[IntruderLogsKey := LogList([])]
  {
  }

  /** Whatever was stored before, the log never holds more than 50 records after an insert. */
  lemma AddedLogIsBounded(m: Entries, entry: IntruderLog)
    ensures var after := m[IntruderLogsKey := LogList(PrependCapped(ReadIntruderLogs(m), entry))];
      |ReadIntruderLogs(after)| <= MAX_INTRUDER_LOGS && ReadIntruderLogs(after)[0] == entry
  {
  }

  /** The global-lock flag reads back as the value last written, and as false when absent. */
  lemma IsAllLockedRoundTrip(m: Entries, locked: bool)
    ensures ReadIsAllLocked(m[IsAllLockedKey := Text(FlagText(locked))]) == locked
    ensures IsAllLockedKey !in m ==> !ReadIsAllLocked(m)
  {
  }

  /** Nothing readable stored means the defaults. */
  lemma SettingsDefaultWhenAbsent(m: Entries)
    requires SecuritySettingsKey !in m || !m[SecuritySettingsKey].SettingsRecord?
    ensures ReadSecuritySettings(m) == DEFAULT_SETTINGS
  {
  }

  /** Saving settings and reading them back gives the same settings. */
  lemma SettingsRoundTrip(m: Entries, s: SecuritySettings)
    ensures ReadSecuritySettings(m[SecuritySettingsKey := SettingsRecord(Serialized(s))]) == s
  {
  }

  /** Locking every app twice is the same as once. */
  lemma LockAllIdempotent(apps: seq<AppInfo>, locked: bool)
    ensures WithAllLocked(WithAllLocked(apps, locked), locked) == WithAllLocked(apps, locked)
  {
  }

  /** Setting one app's status twice is the same as once. */
  lemma LockStatusIdempotent(apps: seq<AppInfo>, appId: string, locked: bool)
    ensures WithLockStatus(WithLockStatus(apps, appId, locked), appId, locked) == WithLockStatus(apps, appId, locked)
  {
  }

  // ---------------------------------------------------------------------
  // The store itself

  /** The device's key-value store, shared by every screen. */
  class Store {
    var entries: Entries

    constructor (initial: Entries)
      ensures entries == initial
    {
      entries := initial;
    }

    /** getLockedApps: seeds the catalogue into an empty slot (absent, or the empty
        text, which the source treats alike); a stored value that cannot be parsed
        yields the catalogue without being overwritten. */
    method GetLockedApps() returns (apps: seq<AppInfo>)
      modifies this
      ensures apps == CurrentApps(old(entries))
      ensures EmptySlot(old(entries), LockedAppsKey) ==> entries == old(entries)[LockedAppsKey := AppList(MOCK_APPS)]
      ensures !EmptySlot(old(entries), LockedAppsKey) ==> entries == old(entries)
    {
      if LockedAppsKey in entries && entries[LockedAppsKey] != Text("") {
        var stored := entries[LockedAppsKey];
        if stored.AppList? {
          return stored.apps;
        }
        return MOCK_APPS;
      }
      entries := entries[LockedAppsKey := AppList(MOCK_APPS)];
      apps := MOCK_APPS;
    }

    method UpdateAppLockStatus(appId: string, locked: bool) returns (updated: seq<AppInfo>)
      modifies this
      ensures updated == WithLockStatus(CurrentApps(old(entries)), appId, locked)
      ensures entries == old(entries)[LockedAppsKey := AppList(updated)]
    {
      var apps := GetLockedApps();
      updated := WithLockStatus(apps, appId, locked);
      entries := entries[LockedAppsKey := AppList(updated)];
    }

    method LockAllApps(locked: bool) returns (updated: seq<AppInfo>)
      modifies this
      ensures updated == WithAllLocked(CurrentApps(old(entries)), locked)
      ensures entries == old(entries)[LockedAppsKey := AppList(updated)]
    {
      var apps := GetLockedApps();
      updated := WithAllLocked(apps, locked);
      entries := entries[LockedAppsKey := AppList(updated)];
    }

    method GetIsAllLocked() returns (locked: bool)
      ensures locked <==> IsAllLockedKey in entries && entries[IsAllLockedKey] == Text("true")
    {
      if IsAllLockedKey !in entries {
        return false;
      }
      locked := entries[IsAllLockedKey] == Text("true");
    }

    method SetIsAllLocked(locked: bool)
      modifies this
      ensures entries == old(entries)[IsAllLockedKey := Text(FlagText(locked))]
      ensures ReadIsAllLocked(entries) == locked
    {
      entries := entries[IsAllLockedKey := Text(if locked then "true" else "false")];
    }

    method GetIntruderLogs() returns (logs: seq<IntruderLog>)
      ensures logs == ReadIntruderLogs(entries)
    {
      if IntruderLogsKey in entries && entries[IntruderLogsKey].LogList? {
        return entries[IntruderLogsKey].logs;
      }
      return [];
    }

    /** addIntruderLog: the record's id is the clock reading `clock` in decimal. */
    method AddIntruderLog(timestamp: int, failedAttempts: int, photoUri: Option<string>,
                          appName: Option<string>, clock: nat)
      modifies this
      ensures entries == old(entries)[IntruderLogsKey := LogList(PrependCapped(
        ReadIntruderLogs(old(entries)),
        IntruderLog(Decimal(clock), timestamp, failedAttempts, photoUri, appName)))]
      ensures |ReadIntruderLogs(entries)| <= MAX_INTRUDER_LOGS
    {
      var logs := GetIntruderLogs();
      var newLog := IntruderLog(Decimal(clock), timestamp, failedAttempts, photoUri, appName);
      logs := [newLog] + logs;
      entries := entries[IntruderLogsKey := LogList(logs[..Min(|logs|, MAX_INTRUDER_LOGS)])];
    }

    method ClearIntruderLogs()
      modifies this
      ensures entries == old(entries)[IntruderLogsKey := LogList([])]
      ensures ReadIntruderLogs(entries) == []
    {
      entries := entries[IntruderLogsKey := LogList([])];
    }

    method GetAuthConfig() returns (config: Option<AuthConfig>)
      ensures config == ReadAuthConfig(entries)
    {
      if AuthConfigKey in entries && entries[AuthConfigKey].AuthRecord? {
        return Some(entries[AuthConfigKey].config);
      }
      return None;
    }

    method SaveAuthConfig(config: AuthConfig)
      modifies this
      ensures entries == old(entries)[AuthConfigKey := AuthRecord(config)]
    {
      entries := entries[AuthConfigKey := AuthRecord(config)];
    }

    method GetSecuritySettings() returns (settings: SecuritySettings)
      ensures settings == ReadSecuritySettings(entries)
    {
      if SecuritySettingsKey in entries && entries[SecuritySettingsKey].SettingsRecord? {
        return Merge(DEFAULT_SETTINGS, entries[SecuritySettingsKey].fields);
      }
      return DEFAULT_SETTINGS;
    }

    method SaveSecuritySettings(settings: SecuritySettings)
      modifies this
      ensures entries == old(entries)[SecuritySettingsKey := SettingsRecord(Serialized(settings))]
      ensures ReadSecuritySettings(entries) == settings
    {
      entries := entries[SecuritySettingsKey := SettingsRecord(Serialized(settings))];
    }

    /** verifyPin: fail-closed comparison against the stored PIN. */
    method VerifyPin(pin: string) returns (ok: bool)
      ensures ok == PinAccepted(ReadAuthConfig(entries), pin)
    {
      var config := GetAuthConfig();
      if config.None? || config.value.pinHash.None? || config.value.pinHash.value == [] {
        return false;
      }
      ok := config.value.pinHash.value == pin;
    }

    /** setupPin: replaces the record with a completed PIN setup, biometrics off. */
    method SetupPin(pin: string)
      modifies this
      ensures entries == old(entries)[AuthConfigKey := AuthRecord(AuthConfig(Pin, Some(pin), false, true))]
      ensures forall q :: PinAccepted(ReadAuthConfig(entries), q) <==> pin != [] && q == pin
    {
      SaveAuthConfig(AuthConfig(Pin, Some(pin), false, true));
      assert ReadAuthConfig(entries) == Some(SetupRecord(pin));
    }
  }
}
