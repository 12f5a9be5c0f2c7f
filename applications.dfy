/** The applications screen: the installed applications as `AppInfo`
    records sorted by name, and the search filter over them. What the package
    manager and the storage statistics return for each application is an
    input. */
module Applications {
  import opened Wrappers
  import opened Text
  import opened Sorting

  const SDK_O: int := 26

  /** The outcome of `getPackageInfo(..).versionName`: it throws, the name is
      null, or there is one. */
  datatype VersionLookup = VersionThrows | NoVersionName | VersionName(name: string)

  datatype StorageStats = StorageStats(appBytes: int, dataBytes: int, cacheBytes: int)

  /** One installed application as the platform reports it: its label, its
      package name, the version lookup, the storage statistics query (`None`
      when it throws) and the length of its APK file. */
  datatype InstalledApp = InstalledApp(appLabel: string, packageName: string, version: VersionLookup,
                                       stats: Option<StorageStats>, apkLength: int)

  /** One row of the list (`AppInfo`; the icon is not modelled). */
  datatype AppInfo = AppInfo(name: string, packageName: string, version: string, size: int)

  /** The version shown: the version name, or "Unknown" when the lookup
      throws or gives no name. */
  function VersionText(v: VersionLookup): (s: string)
    ensures v.VersionName? ==> s == v.name
    ensures !v.VersionName? ==> s == "Unknown"
  {
    match v
    case VersionName(name) => name
    case _ => "Unknown"
  }

  /** The size shown: app, data and cache bytes from O on when the query
      succeeds; the APK length before O or when it throws. */
  function AppSize(app: InstalledApp, sdk: int): (size: int)
    ensures sdk >= SDK_O && app.stats.Some? ==>
              size == app.stats.value.appBytes + app.stats.value.dataBytes + app.stats.value.cacheBytes
    ensures !(sdk >= SDK_O && app.stats.Some?) ==> size == app.apkLength
  {
    if sdk >= SDK_O then
      match app.stats
      case Some(st) => st.appBytes + st.dataBytes + st.cacheBytes
      case None => app.apkLength
    else app.apkLength
  }

  function ToAppInfo(app: InstalledApp, sdk: int): AppInfo
  {
    AppInfo(app.appLabel, app.packageName, VersionText(app.version), AppSize(app, sdk))
  }

  /** The rows in the order the package manager lists the applications. */
  function AppRows(apps: seq<InstalledApp>, sdk: int): (rows: seq<AppInfo>)
    ensures |rows| == |apps|
    ensures forall i :: 0 <= i < |apps| ==> rows[i] == ToAppInfo(apps[i], sdk)
  {
    seq(|apps|, i requires 0 <= i < |apps| => ToAppInfo(apps[i], sdk))
  }

  /** `String.compareTo` order: a name as the sequence of its character codes. */
  function CharCodes(s: string): (k: seq<int>)
    ensures |k| == |s|
    ensures forall i :: 0 <= i < |s| ==> k[i] == s[i] as int
  {
    seq(|s|, i requires 0 <= i < |s| => s[i] as int)
  }

  function ByName(a: AppInfo): seq<int>
  {
    CharCodes(a.name)
  }

  /** Equal keys mean equal names, so stability keeps equally named rows in
      the package manager's order. */
  lemma ByNameInjective(a: AppInfo, b: AppInfo)
    requires ByName(a) == ByName(b)
    ensures a.name == b.name
  {
    assert |a.name| == |b.name|;
    forall i | 0 <= i < |a.name| ensures a.name[i] == b.name[i] {
      assert ByName(a)[i] == ByName(b)[i];
    }
  }

  /** `getInstalledApps`: one row per installed application, sorted by name. */
  function GetInstalledApps(apps: seq<InstalledApp>, sdk: int): (r: seq<AppInfo>)
    ensures |r| == |apps|
    ensures multiset(r) == multiset(AppRows(apps, sdk))
    ensures Sorted(r, ByName)
  {
    assert |multiset(AppRows(apps, sdk))| == |apps|;
    SortBy(AppRows(apps, sdk), ByName)
  }

  /** Rows with the same name keep their relative order. */
  lemma InstalledAppsStable(apps: seq<InstalledApp>, sdk: int, name: string)
    ensures WithKey(GetInstalledApps(apps, sdk), ByName, CharCodes(name)) ==
            WithKey(AppRows(apps, sdk), ByName, CharCodes(name))
  {
    SortByStable(AppRows(apps, sdk), ByName, CharCodes(name));
  }

  /** The search: the name or the package name contains the query, ignoring case. */
  predicate Matches(a: AppInfo, query: string)
  {
    ContainsIgnoreCase(a.name, query) || ContainsIgnoreCase(a.packageName, query)
  }

  /** `installedApps.filter { .. }`. */
  function FilterApps(apps: seq<AppInfo>, query: string): (r: seq<AppInfo>)
    ensures |r| <= |apps|
    ensures forall a :: a in r <==> a in apps && Matches(a, query)
  {
    if apps == [] then []
    else (if Matches(apps[0], query) then [apps[0]] else []) + FilterApps(apps[1..], query)
  }

  /** Filtering keeps the order: it distributes over concatenation. */
  lemma {:induction false} FilterAppend(a: seq<AppInfo>, b: seq<AppInfo>, query: string)
    ensures FilterApps(a + b, query) == FilterApps(a, query) + FilterApps(b, query)
    decreases |a|
  {
    if a != [] {
      assert (a + b)[1..] == a[1..] + b;
      FilterAppend(a[1..], b, query);
    } else {
      assert a + b == b;
    }
  }

  /** The empty query keeps every application. */
  lemma {:induction false} FilterEmptyQuery(apps: seq<AppInfo>)
    ensures FilterApps(apps, "") == apps
    decreases |apps|
  {
    if apps != [] {
      ContainsIgnoreCaseTrivial(apps[0].name);
      FilterEmptyQuery(apps[1..]);
    }
  }

  /** Filtering twice with the same query changes nothing. */
  lemma {:induction false} FilterIdempotent(apps: seq<AppInfo>, query: string)
    ensures FilterApps(FilterApps(apps, query), query) == FilterApps(apps, query)
    decreases |apps|
  {
    if apps != [] {
      var head := if Matches(apps[0], query) then [apps[0]] else [];
      FilterAppend(head, FilterApps(apps[1..], query), query);
      FilterIdempotent(apps[1..], query);
      assert FilterApps(head, query) == head by {
        if head != [] {
          assert head[1..] == [];
        }
      }
    }
  }

  /** The screen's state: the loaded rows, the query and the loading flag. */
  class ApplicationsScreen {
    var installedApps: seq<AppInfo>
    var searchQuery: string
    var isLoading: bool

    constructor ()
      ensures installedApps == [] && searchQuery == "" && isLoading
    {
      installedApps := [];
      searchQuery := "";
      isLoading := true;
    }

    /** The loading effect: the sorted rows replace the list and loading ends. */
    method OnAppsLoaded(apps: seq<InstalledApp>, sdk: int)
      modifies this
      ensures installedApps == GetInstalledApps(apps, sdk)
      ensures !isLoading && searchQuery == old(searchQuery)
    {
      installedApps := GetInstalledApps(apps, sdk);
      isLoading := false;
    }

    /** Typing in the search bar. */
    method OnQueryChange(query: string)
      modifies this
      ensures searchQuery == query
      ensures installedApps == old(installedApps) && isLoading == old(isLoading)
    {
      searchQuery := query;
    }

    /** The rows shown: the loaded rows that match the query, in order; all
        of them when the query is empty. */
    function FilteredApps(): (r: seq<AppInfo>)
      reads this
      ensures forall a :: a in r <==> a in installedApps && Matches(a, searchQuery)
      ensures searchQuery == "" ==> r == installedApps
    {
      FilterEmptyQuery(installedApps);
      FilterApps(installedApps, searchQuery)
    }
  }
}
