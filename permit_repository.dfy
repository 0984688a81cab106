/** `PermitRepository`: the cached permit, the last-sync timestamp and the remote
    URL, kept in an Android `SharedPreferences` file. The preferences are a map from
    key to typed value; a getter falls back to its default when the key is absent. */
module PermitStore {
  import opened JavaLang
  import opened PermitData

  const KeyPermit := "cached_permit"
  const KeyLastSync := "last_sync_time"
  const KeyGitHubUrl := "github_url"
  const DefaultGitHubUrl := "https://raw.githubusercontent.com/VisTechProjects/parking_pass_display/permit/permit.json"

  datatype PrefValue = StringPref(s: string) | LongPref(n: int)

  /** The contents of the preferences file. */
  type Prefs = map<string, PrefValue>

  /** Each key holds the type its getter reads (only this class writes the file). */
  predicate WellTyped(prefs: Prefs) {
    && (KeyPermit in prefs ==> prefs[KeyPermit].StringPref?)
    && (KeyLastSync in prefs ==> prefs[KeyLastSync].LongPref?)
    && (KeyGitHubUrl in prefs ==> prefs[KeyGitHubUrl].StringPref?)
  }

  /** `getPermit()`: null when nothing is stored, or when the stored JSON decodes to
      null or throws; otherwise the decoded permit. */
  function CachedPermit(prefs: Prefs, codec: Codec): (r: Option<Permit>)
    requires WellTyped(prefs)
    ensures KeyPermit !in prefs ==> r.None?
    ensures r.Some? <==> KeyPermit in prefs && codec.fromJson(prefs[KeyPermit].s).Value?
    ensures r.Some? ==> codec.fromJson(prefs[KeyPermit].s) == Value(r.value)
  {
    if KeyPermit !in prefs then None
    else match codec.fromJson(prefs[KeyPermit].s)
      case Value(p) => Some(p)
      case JsonNull => None
      case SyntaxError => None
  }

  /** `getLastSyncTime()`: 0 ("never") until a permit has been saved. */
  function LastSyncTime(prefs: Prefs): (t: int)
    requires WellTyped(prefs)
    ensures KeyLastSync !in prefs ==> t == 0
    ensures KeyLastSync in prefs ==> prefs[KeyLastSync] == LongPref(t)
  {
    if KeyLastSync in prefs then prefs[KeyLastSync].n else 0
  }

  /** `getGitHubUrl()`: the configured URL, or the built-in default. */
  function GitHubUrl(prefs: Prefs): (url: string)
    requires WellTyped(prefs)
    ensures KeyGitHubUrl !in prefs ==> url == DefaultGitHubUrl
    ensures KeyGitHubUrl in prefs ==> prefs[KeyGitHubUrl] == StringPref(url)
  {
    if KeyGitHubUrl in prefs then prefs[KeyGitHubUrl].s else DefaultGitHubUrl
  }

  /** The file after `savePermit(p)` at clock value `now`: the permit's JSON and the
      timestamp are written in one edit; every other key is kept. */
  function SavedPrefs(prefs: Prefs, codec: Codec, p: Permit, now: int): (r: Prefs)
    requires WellTyped(prefs)
    ensures WellTyped(r)
    ensures r.Keys == prefs.Keys + {KeyPermit, KeyLastSync}
    ensures r[KeyPermit] == StringPref(codec.toJson(p)) && r[KeyLastSync] == LongPref(now)
    ensures forall k :: k in prefs && k != KeyPermit && k != KeyLastSync ==> r[k] == prefs[k]
  {
    prefs[KeyPermit := StringPref(codec.toJson(p))][KeyLastSync := LongPref(now)]
  }

  /** The file after `setGitHubUrl(url)`. Android's `putString(key, null)` removes
      the key, so setting null restores the default. */
  function UrlPrefs(prefs: Prefs, url: Option<string>): (r: Prefs)
    requires WellTyped(prefs)
    ensures WellTyped(r)
    ensures url.Some? ==> r.Keys == prefs.Keys + {KeyGitHubUrl} && r[KeyGitHubUrl] == StringPref(url.value)
    ensures url.None? ==> r.Keys == prefs.Keys - {KeyGitHubUrl}
    ensures forall k :: k in prefs && k != KeyGitHubUrl ==> k in r && r[k] == prefs[k]
  {
    match url
    case Some(u) => prefs[KeyGitHubUrl := StringPref(u)]
    case None => prefs - {KeyGitHubUrl}
  }

  /** Saving then reading gives back the permit as Gson round-trips it. */
  lemma SaveThenGet(prefs: Prefs, codec: Codec, p: Permit, now: int)
    requires WellTyped(prefs) && GsonLike(codec)
    ensures CachedPermit(SavedPrefs(prefs, codec, p, now), codec) == Some(Normalized(p))
    ensures LastSyncTime(SavedPrefs(prefs, codec, p, now)) == now
    ensures GitHubUrl(SavedPrefs(prefs, codec, p, now)) == GitHubUrl(prefs)
  {
    var r := SavedPrefs(prefs, codec, p, now);
    assert codec.fromJson(codec.toJson(p)) == Value(Normalized(p));
  }

  /** Setting the URL leaves the cached permit and the timestamp alone; the URL
      read back is the one set, or the default when null was set. */
  lemma SetUrlThenGet(prefs: Prefs, codec: Codec, url: Option<string>)
    requires WellTyped(prefs)
    ensures GitHubUrl(UrlPrefs(prefs, url)) == if url.Some? then url.value else DefaultGitHubUrl
    ensures CachedPermit(UrlPrefs(prefs, url), codec) == CachedPermit(prefs, codec)
    ensures LastSyncTime(UrlPrefs(prefs, url)) == LastSyncTime(prefs)
  {
    var r := UrlPrefs(prefs, url);
    assert KeyPermit in r <==> KeyPermit in prefs;
    assert KeyLastSync in r <==> KeyLastSync in prefs;
  }

  /** A fresh preferences file: no permit, never synced, default URL. */
  lemma EmptyPrefs(codec: Codec)
    ensures CachedPermit(map[], codec) == None
    ensures LastSyncTime(map[]) == 0 && GitHubUrl(map[]) == DefaultGitHubUrl
  {
  }

  /** The repository object: a view over one preferences file. */
  class PermitRepository {
    const codec: Codec
    var prefs: Prefs

    ghost predicate Valid()
      reads this
    {
      WellTyped(prefs)
    }

    /** Opens the repository over the file as it is on disk. */
    constructor (codec: Codec, stored: Prefs)
      requires WellTyped(stored)
      ensures Valid() && this.codec == codec && prefs == stored
    {
      this.codec := codec;
      prefs := stored;
    }

    function GetPermit(): (r: Option<Permit>)
      reads this
      requires Valid()
      ensures r == CachedPermit(prefs, codec)
    {
      CachedPermit(prefs, codec)
    }

    function GetLastSyncTime(): (t: int)
      reads this
      requires Valid()
      ensures t == LastSyncTime(prefs)
    {
      LastSyncTime(prefs)
    }

    function GetGitHubUrl(): (url: string)
      reads this
      requires Valid()
      ensures url == GitHubUrl(prefs)
    {
      GitHubUrl(prefs)
    }

    /** `savePermit(permit)`, with `now` the value of `System.currentTimeMillis()`. */
    method SavePermit(p: Permit, now: int)
      requires Valid()
      modifies this
      ensures Valid()
      ensures prefs == SavedPrefs(old(prefs), codec, p, now)
      ensures GsonLike(codec) ==> GetPermit() == Some(Normalized(p))
      ensures GetLastSyncTime() == now && GetGitHubUrl() == old(GetGitHubUrl())
    {
      prefs := prefs[KeyPermit := StringPref(codec.toJson(p))][KeyLastSync := LongPref(now)];
      if GsonLike(codec) {
        SaveThenGet(old(prefs), codec, p, now);
      }
    }

    /** `setGitHubUrl(url)`. */
    method SetGitHubUrl(url: Option<string>)
      requires Valid()
      modifies this
      ensures Valid()
      ensures prefs == UrlPrefs(old(prefs), url)
      ensures GetGitHubUrl() == if url.Some? then url.value else DefaultGitHubUrl
      ensures GetPermit() == old(GetPermit()) && GetLastSyncTime() == old(GetLastSyncTime())
    {
      SetUrlThenGet(prefs, codec, url);
      match url
      case Some(u) => prefs := prefs[KeyGitHubUrl := StringPref(u)];
      case None => prefs := prefs - {KeyGitHubUrl};
    }
  }
}
