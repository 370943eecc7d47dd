/** The records the app persists and passes between screens (client/types/app.ts). */
module AppTypes {
  import opened Common

  /** One installed app and whether the user has locked it. */
  datatype AppInfo = AppInfo(
    id: string,
    name: string,
    packageName: string,
    icon: string,
    isLocked: bool,
    category: string)

  /** A record of a failure streak that reached the lockout threshold. */
  datatype IntruderLog = IntruderLog(
    id: string,
    timestamp: int,
    failedAttempts: int,
    photoUri: Option<string>,
    appName: Option<string>)

  datatype AuthType = Pin | Pattern | Biometric

  /** The single authentication record. `pinHash` holds the PIN itself: nothing is hashed. */
  datatype AuthConfig = AuthConfig(
    authType: AuthType,
    pinHash: Option<string>,
    biometricEnabled: bool,
    isSetupComplete: bool)

  datatype SecuritySettings = SecuritySettings(
    screenshotPrevention: bool,
    rootDetection: bool,
    uninstallProtection: bool,
    intruderDetection: bool,
    lockTimeout: int,
    recoveryEmail: Option<string>)

  /** A settings object as read back from storage: any field may be missing. */
  datatype StoredSettings = StoredSettings(
    screenshotPrevention: Option<bool>,
    rootDetection: Option<bool>,
    uninstallProtection: Option<bool>,
    intruderDetection: Option<bool>,
    lockTimeout: Option<int>,
    recoveryEmail: Option<string>)
}
