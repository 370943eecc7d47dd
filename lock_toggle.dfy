/** The global lock toggle (client/screens/LockToggleScreen.tsx): a tap flips the
    persisted "all apps locked" flag, behind a biometric check when the device
    has one enrolled, and the screen shows how many apps are protected.
    The platform's biometric answers are parameters of the tap. */
module LockToggle {
  import opened Common
  import opened AppTypes
  import Storage
  import ProtectedApps

  /** lockedCount: the number of apps marked locked; with the unlocked ones it
      makes up the whole list. */
  function LockedCount(apps: seq<AppInfo>): (n: nat)
    ensures n <= |apps|
    ensures n + |ProtectedApps.UnlockedApps(apps)| == |apps|
  {
    ProtectedApps.Partition(apps);
    |ProtectedApps.LockedApps(apps)|
  }

  /** The count is at most the number of apps; it is zero exactly when no app is
      locked and equals the number of apps exactly when every app is. */
  lemma LockedCountRange(apps: seq<AppInfo>)
    ensures LockedCount(apps) <= |apps|
    ensures LockedCount(apps) == 0 <==> forall i :: 0 <= i < |apps| ==> !apps[i].isLocked
    ensures LockedCount(apps) == |apps| <==> forall i :: 0 <= i < |apps| ==> apps[i].isLocked
  {
    ProtectedApps.Partition(apps);
    forall i | 0 <= i < |apps|
      ensures apps[i] in ProtectedApps.LockedApps(apps) <==> apps[i].isLocked
      ensures apps[i] in ProtectedApps.UnlockedApps(apps) <==> !apps[i].isLocked
    {
      ProtectedApps.SectionsDisjoint(apps, apps[i]);
    }
    if LockedCount(apps) != 0 {
      var x := ProtectedApps.LockedApps(apps)[0];
      ProtectedApps.SectionsDisjoint(apps, x);
      var i :| 0 <= i < |apps| && apps[i] == x;
    }
    if LockedCount(apps) != |apps| {
      var x := ProtectedApps.UnlockedApps(apps)[0];
      ProtectedApps.SectionsDisjoint(apps, x);
      var i :| 0 <= i < |apps| && apps[i] == x;
    }
  }

  /** After "lock all" every app counts; after "unlock all" none does. */
  lemma LockedCountAfterLockAll(apps: seq<AppInfo>, locked: bool)
    ensures LockedCount(Storage.WithAllLocked(apps, locked)) == if locked then |apps| else 0
  {
    LockedCountRange(Storage.WithAllLocked(apps, locked));
  }

  /** "<n> app protected" or "<n> apps protected": the count's decimal spelling,
      then " app", an optional "s", and " protected". */
  function CountText(n: nat): (t: string)
    ensures |t| == |Decimal(n)| + (if n != 1 then 15 else 14)
    ensures t[..|Decimal(n)|] == Decimal(n)
    ensures t[|Decimal(n)|..|Decimal(n)| + 4] == " app"
    ensures t[|t| - 10..] == " protected"
  {
    Decimal(n) + " app" + (if n != 1 then "s" else "") + " protected"
  }

  /** The text starts with the count, which reads back as `n`, and uses the plural
      exactly when `n` is not one. */
  lemma CountTextPlural(n: nat)
    ensures var t := CountText(n); var d := |Decimal(n)|;
      && |t| >= d + 14
      && DigitsValue(t[..d]) == n
      && (t[d + 4] == 's' <==> n != 1)
  {
    var t := CountText(n);
    assert t[..|Decimal(n)|] == Decimal(n);
  }

  /** Whether a tap reaches the mutation: always on web or without enrolled
      biometrics, otherwise only after a successful check. */
  predicate TapToggles(isWeb: bool, hasHardware: bool, isEnrolled: bool, authSuccess: bool)
  {
    isWeb || !(hasHardware && isEnrolled) || authSuccess
  }

  class LockToggleScreen {
    const store: Storage.Store
    /** The cached value of the "isAllLocked" query. */
    var isLocked: bool

    /** Before the query resolves the flag reads as false. */
    constructor (store: Storage.Store)
      ensures this.store == store && !isLocked
    {
      this.store := store;
      isLocked := false;
    }

    /** The query's fetch. */
    method Refresh()
      modifies this`isLocked
      ensures isLocked == Storage.ReadIsAllLocked(store.entries)
    {
      isLocked := store.GetIsAllLocked();
    }

    /** toggleMutation: persist the flag, then put it in the cache. */
    method Mutate(newLocked: bool)
      modifies this`isLocked, store
      ensures store.entries == old(store.entries)[Storage.IsAllLockedKey := Storage.Text(Storage.FlagText(newLocked))]
      ensures isLocked == newLocked == Storage.ReadIsAllLocked(store.entries)
    {
      store.SetIsAllLocked(newLocked);
      isLocked := newLocked;
    }

    /** handleToggle. The result says whether the mutation ran; when it does it
        writes the negation of the cached flag, and the cache then agrees with
        the store. */
    method Toggle(isWeb: bool, hasHardware: bool, isEnrolled: bool, authSuccess: bool) returns (toggled: bool)
      modifies this`isLocked, store
      ensures toggled <==> TapToggles(isWeb, hasHardware, isEnrolled, authSuccess)
      ensures toggled ==> isLocked == !old(isLocked)
      ensures toggled ==>
        store.entries == old(store.entries)[Storage.IsAllLockedKey := Storage.Text(Storage.FlagText(!old(isLocked)))]
      ensures toggled ==> Storage.ReadIsAllLocked(store.entries) == isLocked
      ensures !toggled ==> isLocked == old(isLocked) && store.entries == old(store.entries)
    {
      if isWeb {
        Mutate(!isLocked);
        return true;
      }
      if hasHardware && isEnrolled {
        if authSuccess {
          Mutate(!isLocked);
          return true;
        }
        return false;
      } else {
        Mutate(!isLocked);
        return true;
      }
    }
  }
}
