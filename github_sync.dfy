/** `GitHubSyncTask.sync`: fetch the permit JSON from the configured URL, check it,
    decide whether it is a new permit, and cache it. The HTTP exchange is a
    function of the URL (`fetch`), and the clock value is a parameter. */
module GitHubSync {
  import opened JavaLang
  import opened PermitData
  import opened PermitStore

  /** What the HTTP call yields: a response, or an `IOException` with its message
      (which Java allows to be null). */
  datatype HttpResult = Response(code: int, body: string) | IoFailure(message: Option<string>)

  /** What the caller's callback receives. `Crashed` is a runtime exception that
      escapes the sync runnable (a `JsonSyntaxException` from Gson, or a null pointer): no
      callback is posted at all. */
  datatype SyncOutcome = Synced(permit: Permit, isNew: bool) | Failed(error: Option<string>) | Crashed

  /** OkHttp's `Response.isSuccessful()`. */
  predicate IsSuccessful(code: int) {
    200 <= code < 300
  }

  const InvalidPermitData := "Invalid permit data"

  function HttpError(code: int): string {
    "HTTP " + LongToString(code)
  }

  /** `isNew`: no permit was cached, or the cached one has another number.
      `None` when the cached permit's number is null, where Java's `equals` call
      throws a `NullPointerException`. */
  function IsNewPermit(stored: Option<Permit>, fetched: Permit): (r: Option<bool>)
    ensures r.None? <==> stored.Some? && stored.value.permitNumber.None?
    ensures r.Some? ==> (r.value <==> stored.None? || stored.value.permitNumber != fetched.permitNumber)
  {
    match stored
    case None => Some(true)
    case Some(cached) =>
      if cached.permitNumber.None? then None else Some(cached.permitNumber != fetched.permitNumber)
  }

  /** The outcome of one sync, given the HTTP result and the permit cached before it. */
  function Decide(http: HttpResult, codec: Codec, stored: Option<Permit>): (r: SyncOutcome)
    ensures http.IoFailure? ==> r == Failed(http.message)
    ensures http.Response? && !IsSuccessful(http.code) ==> r == Failed(Some(HttpError(http.code)))
    ensures http.Response? && IsSuccessful(http.code) ==>
      match codec.fromJson(http.body)
      case SyntaxError => r == Crashed
      case JsonNull => r == Failed(Some(InvalidPermitData))
      case Value(p) => !IsValid(p) ==> r == Failed(Some(InvalidPermitData))
    ensures r.Synced? ==>
      && http.Response? && IsSuccessful(http.code)
      && codec.fromJson(http.body) == Value(r.permit) && IsValid(r.permit)
      && (r.isNew <==> stored.None? || stored.value.permitNumber != r.permit.permitNumber)
    ensures r.Crashed? ==> http.Response? && IsSuccessful(http.code)
  {
    match http
    case IoFailure(message) => Failed(message)
    case Response(code, body) =>
      if !IsSuccessful(code) then Failed(Some(HttpError(code)))
      else match codec.fromJson(body)
        case SyntaxError => Crashed
        case JsonNull => Failed(Some(InvalidPermitData))
        case Value(p) =>
          if !IsValid(p) then Failed(Some(InvalidPermitData))
          else match IsNewPermit(stored, p)
            case None => Crashed
            case Some(isNew) => Synced(p, isNew)
  }

  /** A fetch that decodes to a valid permit syncs unless the cached permit has a
      null number. */
  lemma ValidFetchSyncs(code: int, body: string, codec: Codec, stored: Option<Permit>, p: Permit)
    requires IsSuccessful(code) && codec.fromJson(body) == Value(p) && IsValid(p)
    requires stored.None? || stored.value.permitNumber.Some?
    ensures Decide(Response(code, body), codec, stored).Synced?
    ensures Decide(Response(code, body), codec, stored).permit == p
  {
  }

  /** Syncing a permit with the same number as the one just cached reports it as not
      new; a different number reports it as new. */
  lemma {:induction false} ResyncIsNewIffNumberChanged(prefs: Prefs, codec: Codec, p: Permit, now: int,
                                                      code: int, body: string, q: Permit)
    requires WellTyped(prefs) && GsonLike(codec) && IsValid(p)
    requires IsSuccessful(code) && codec.fromJson(body) == Value(q) && IsValid(q)
    ensures Decide(Response(code, body), codec, CachedPermit(SavedPrefs(prefs, codec, p, now), codec))
            == Synced(q, q.permitNumber != p.permitNumber)
  {
    SaveThenGet(prefs, codec, p, now);
  }

  /** The first sync into an empty cache always reports a new permit. */
  lemma FirstSyncIsNew(code: int, body: string, codec: Codec, p: Permit)
    requires IsSuccessful(code) && codec.fromJson(body) == Value(p) && IsValid(p)
    ensures Decide(Response(code, body), codec, CachedPermit(map[], codec)) == Synced(p, true)
  {
  }

  /** The sync job; it owns a repository over the app's preferences. */
  class GitHubSyncTask {
    const repository: PermitRepository

    constructor (repository: PermitRepository)
      ensures this.repository == repository
    {
      this.repository := repository;
    }

    /** `sync(callback)`: returns what the callback is given; on success the permit
        is saved (once, before the outcome is delivered), otherwise nothing is written. */
    method Sync(fetch: string -> HttpResult, now: int) returns (outcome: SyncOutcome)
      requires repository.Valid()
      modifies repository
      ensures repository.Valid()
      ensures outcome == Decide(fetch(old(repository.GetGitHubUrl())), repository.codec,
                                old(repository.GetPermit()))
      ensures outcome.Synced? ==>
                repository.prefs == SavedPrefs(old(repository.prefs), repository.codec, outcome.permit, now)
      ensures !outcome.Synced? ==> repository.prefs == old(repository.prefs)
    {
      var url := repository.GetGitHubUrl();
      var http := fetch(url);
      if http.IoFailure? {
        outcome := Failed(http.message);
        return;
      }
      if !IsSuccessful(http.code) {
        outcome := Failed(Some(HttpError(http.code)));
        return;
      }
      var decoded := repository.codec.fromJson(http.body);
      if decoded.SyntaxError? {
        outcome := Crashed;
        return;
      }
      if decoded.JsonNull? || !IsValid(decoded.permit) {
        outcome := Failed(Some(InvalidPermitData));
        return;
      }
      var newPermit := decoded.permit;
      var oldPermit := repository.GetPermit();
      var isNew := IsNewPermit(oldPermit, newPermit);
      if isNew.None? {
        outcome := Crashed;
        return;
      }
      repository.SavePermit(newPermit, now);
      outcome := Synced(newPermit, isNew.value);
    }
  }
}
