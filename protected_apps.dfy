/** The protected-apps list (client/screens/ProtectedAppsScreen.tsx): searching,
    splitting the result into locked and unlocked apps, the "lock all / unlock
    all" button and the per-app toggle. All of it is computed from the app list
    and the search text. */
module ProtectedApps {
  import opened Common
  import opened AppTypes
  import Storage

  predicate IsLocked(app: AppInfo)
  {
    app.isLocked
  }

  predicate IsUnlocked(app: AppInfo)
  {
    !app.isLocked
  }

  /** The search test for an already lower-cased query. */
  function MatchesQuery(query: string): AppInfo -> bool
  {
    (app: AppInfo) => Includes(Lower(app.name), query) || Includes(Lower(app.category), query)
  }

  /** filteredApps: the whole list for an empty query, else the apps whose name or
      category contains the query, ignoring case. */
  function FilteredApps(apps: seq<AppInfo>, searchQuery: string): (r: seq<AppInfo>)
    ensures searchQuery == [] ==> r == apps
    ensures |r| <= |apps|
  {
    if searchQuery == [] then apps else Filter(apps, MatchesQuery(Lower(searchQuery)))
  }

  /** lockedApps: a section of locked apps, never longer than the list. */
  function LockedApps(apps: seq<AppInfo>): (r: seq<AppInfo>)
    ensures |r| <= |apps|
    ensures forall i :: 0 <= i < |r| ==> r[i].isLocked
  {
    Filter(apps, IsLocked)
  }

  /** unlockedApps: a section of unlocked apps, never longer than the list. */
  function UnlockedApps(apps: seq<AppInfo>): (r: seq<AppInfo>)
    ensures |r| <= |apps|
    ensures forall i :: 0 <= i < |r| ==> !r[i].isLocked
  {
    Filter(apps, IsUnlocked)
  }

  /** A non-empty query keeps exactly the apps whose lower-cased name or category
      contains the lower-cased query. */
  lemma SearchMembership(apps: seq<AppInfo>, searchQuery: string, app: AppInfo)
    requires searchQuery != []
    ensures app in FilteredApps(apps, searchQuery) <==>
      app in apps && (Includes(Lower(app.name), Lower(searchQuery)) || Includes(Lower(app.category), Lower(searchQuery)))
  {
    FilterMembership(apps, MatchesQuery(Lower(searchQuery)), app);
  }

  /** Searching a list made of two parts searches each part and keeps their order. */
  lemma SearchKeepsOrder(a: seq<AppInfo>, b: seq<AppInfo>, searchQuery: string)
    ensures FilteredApps(a + b, searchQuery) == FilteredApps(a, searchQuery) + FilteredApps(b, searchQuery)
  {
    if searchQuery != [] {
      FilterAppend(a, b, MatchesQuery(Lower(searchQuery)));
    }
  }

  lemma {:induction false} LowerIdempotent(s: string)
    ensures Lower(Lower(s)) == Lower(s)
  {
    assert forall i :: 0 <= i < |s| ==> LowerChar(LowerChar(s[i])) == LowerChar(s[i]);
  }

  /** The case of the query does not matter. */
  lemma SearchIgnoresQueryCase(apps: seq<AppInfo>, searchQuery: string)
    ensures FilteredApps(apps, Lower(searchQuery)) == FilteredApps(apps, searchQuery)
  {
    LowerIdempotent(searchQuery);
  }

  /** The locked and unlocked sections split the filtered list: together they hold
      every app exactly once. */
  lemma Partition(apps: seq<AppInfo>)
    ensures |LockedApps(apps)| + |UnlockedApps(apps)| == |apps|
    ensures multiset(LockedApps(apps)) + multiset(UnlockedApps(apps)) == multiset(apps)
  {
    FilterSplit(apps, IsLocked, IsUnlocked);
    assert |multiset(LockedApps(apps)) + multiset(UnlockedApps(apps))| == |multiset(apps)|;
  }

  /** No app appears in both sections: each holds exactly the apps of its status. */
  lemma SectionsDisjoint(apps: seq<AppInfo>, app: AppInfo)
    ensures app in LockedApps(apps) <==> app in apps && app.isLocked
    ensures app in UnlockedApps(apps) <==> app in apps && !app.isLocked
  {
    FilterMembership(apps, IsLocked, app);
    FilterMembership(apps, IsUnlocked, app);
  }

  /** Each section keeps the order of the filtered list. */
  lemma SectionsKeepOrder(a: seq<AppInfo>, b: seq<AppInfo>)
    ensures LockedApps(a + b) == LockedApps(a) + LockedApps(b)
    ensures UnlockedApps(a + b) == UnlockedApps(a) + UnlockedApps(b)
  {
    FilterAppend(a, b, IsLocked);
    FilterAppend(a, b, IsUnlocked);
  }

  /** `apps.some(app => !app.isLocked)`. */
  predicate HasUnlocked(apps: seq<AppInfo>)
  {
    exists i :: 0 <= i < |apps| && !apps[i].isLocked
  }

  /** `apps.some(app => !app.isLocked)` holds exactly when some app of the
      whole list, not only of the search result, is unlocked: when the unlocked
      filter of the unfiltered list is non-empty. */
  lemma UnlockedSection(apps: seq<AppInfo>)
    ensures HasUnlocked(apps) <==> UnlockedApps(apps) != []
  {
    if HasUnlocked(apps) {
      var i :| 0 <= i < |apps| && !apps[i].isLocked;
      SectionsDisjoint(apps, apps[i]);
    }
    if UnlockedApps(apps) != [] {
      var x := UnlockedApps(apps)[0];
      SectionsDisjoint(apps, x);
      var i :| 0 <= i < |apps| && apps[i] == x;
    }
  }

  /** handleLockAll's argument to lockAllApps: lock exactly when some app of the
      whole list is unlocked. The search does not enter into it. */
  function LockAllTarget(apps: seq<AppInfo>): (lock: bool)
    ensures lock <==> UnlockedApps(apps) != []
  {
    UnlockedSection(apps);
    HasUnlocked(apps)
  }

  /** fabLabel: one of the two labels, naming the action a press performs. */
  function FabLabel(apps: seq<AppInfo>): (text: string)
    ensures text == "Lock All" || text == "Unlock All"
    ensures text == "Lock All" <==> LockAllTarget(apps)
  {
    if HasUnlocked(apps) then "Lock All" else "Unlock All"
  }

  /** The button shows exactly when the whole list is non-empty, that is when
      one of its two filters has an app; the search does not enter into it. */
  predicate FabVisible(apps: seq<AppInfo>)
    ensures FabVisible(apps) <==> LockedApps(apps) != [] || UnlockedApps(apps) != []
  {
    Partition(apps);
    |apps| > 0
  }

  /** Over the whole list, the button offers "Lock All" exactly when some app is
      unlocked, "Unlock All" exactly when every app is locked, and shows exactly
      when there are apps. */
  lemma FabMatchesList(apps: seq<AppInfo>)
    ensures FabLabel(apps) == "Lock All" <==> UnlockedApps(apps) != []
    ensures FabLabel(apps) == "Unlock All" <==> |LockedApps(apps)| == |apps|
    ensures FabVisible(apps) <==> apps != []
  {
    Partition(apps);
  }

  /** The sections on screen are those of the search result, while the button
      looks at the whole list. An unlocked app on screen therefore always means
      "Lock All"; the converse fails, because an unlocked app that the search
      hides still makes the button lock. */
  lemma DisplayedUnlockedMeansLockAll(apps: seq<AppInfo>, searchQuery: string)
    ensures UnlockedApps(FilteredApps(apps, searchQuery)) != [] ==> FabLabel(apps) == "Lock All"
  {
    var shown := FilteredApps(apps, searchQuery);
    if UnlockedApps(shown) != [] {
      var x := UnlockedApps(shown)[0];
      SectionsDisjoint(shown, x);
      if searchQuery != [] {
        FilterMembership(apps, MatchesQuery(Lower(searchQuery)), x);
      }
      SectionsDisjoint(apps, x);
    }
  }

  /** Pressing the button locks everything if any app was unlocked, and unlocks
      everything if all were locked; on a non-empty list its label then flips. */
  lemma LockAllOutcome(apps: seq<AppInfo>)
    ensures var r := Storage.WithAllLocked(apps, LockAllTarget(apps));
      && (HasUnlocked(apps) ==> forall i :: 0 <= i < |r| ==> r[i].isLocked)
      && (!HasUnlocked(apps) ==> forall i :: 0 <= i < |r| ==> !r[i].isLocked)
      && (FabVisible(apps) ==> FabLabel(r) != FabLabel(apps))
  {
    var r := Storage.WithAllLocked(apps, LockAllTarget(apps));
    if FabVisible(apps) && !HasUnlocked(apps) {
      assert !r[0].isLocked;
    }
  }

  /** handleToggle(app, isLocked), followed by the mutation it starts. The
      argument `apps` stands for the stored list that updateAppLockStatus
      re-reads (`Storage.CurrentApps`), not the screen's cached copy; the two
      agree once the query has loaded and nothing else has written. The list
      the screen shows next gives every app with that id the requested status
      and leaves every other app as it was. */
  function HandleToggle(apps: seq<AppInfo>, app: AppInfo, isLocked: bool): (r: seq<AppInfo>)
    ensures |r| == |apps|
    ensures forall j :: 0 <= j < |apps| && apps[j].id == app.id ==> r[j] == apps[j].(isLocked := isLocked)
    ensures forall j :: 0 <= j < |apps| && apps[j].id != app.id ==> r[j] == apps[j]
  {
    Storage.WithLockStatus(apps, app.id, isLocked)
  }
}
