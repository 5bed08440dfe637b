/**
 * Client programs that drive a fresh service through the request sequences of
 * the API tests and of the limiter, cache and analytics behaviour, and state
 * what each response must be. Each step method states the exact state one
 * request leaves from a known state; the scenarios chain them.
 */
module Scenarios {
  import opened Wrappers
  import opened Redis
  import opened Models
  import opened RateLimit
  import opened Analytics
  import opened Api
  import opened Service

  const Base := "http://testserver/"

  /** A request from `client` at time `now`, with no user agent. */
  function From(client: string, now: int): Request {
    Request(Some(client), None, Base, now)
  }

  /** The first creation on a fresh service succeeds and opens the caller's window. */
  method FirstCreation(body: UrlCreate, req: Request, generatedKey: string, secretKey: string)
    returns (s: Service, r: Result<UrlInfo, ApiError>)
    ensures fresh(s) && s.Valid()
    ensures var key := ChosenKey(body.customKey, generatedKey);
            && s.urls == [NewRecord(key, secretKey, body.targetUrl, req.now)]
            && r == Ok(UrlInfo(key, body.targetUrl, true, 0, req.baseUrl + key, req.baseUrl + "admin/" + secretKey, []))
    ensures s.limits == map[req.client.GetOr(LocalHost) := Entry(1, Some(req.now + Window))]
    ensures s.clickLog == [] && s.cache == map[] && s.pending == []
  {
    s := new Service();
    r := s.CreateUrl(body, req, generatedKey, secretKey);
    CreateOutcomes([], [], map[], body, req, generatedKey, secretKey);
  }

  /** A request for a held alias, inside a window with budget left, is refused and counted. */
  method RepeatAlias(s: Service, body: UrlCreate, req: Request, generatedKey: string, secretKey: string, n: int, start: int)
    returns (r: Result<UrlInfo, ApiError>)
    requires s.Valid() && IsCustom(body.customKey) && HasKey(s.urls, body.customKey.value)
    requires req.client.Some? && s.limits == map[req.client.value := Entry(n, Some(start + Window))]
    requires 1 <= n < Budget && req.now < start + Window
    modifies s`urls, s`limits
    ensures s.Valid() && r == Err(AliasTaken) && s.urls == old(s.urls)
    ensures s.limits == map[req.client.value := Entry(n + 1, Some(start + Window))]
  {
    ghost var urls, limits := s.urls, s.limits;
    r := s.CreateUrl(body, req, generatedKey, secretKey);
    CreateOutcomes(urls, s.clickLog, limits, body, req, generatedKey, secretKey);
  }

  /** A request from an address whose counter has reached the budget inside its window is refused, and nothing changes. */
  method OverBudget(s: Service, body: UrlCreate, req: Request, generatedKey: string, secretKey: string, start: int)
    returns (r: Result<UrlInfo, ApiError>)
    requires s.Valid() && req.client.Some? && s.limits == map[req.client.value := Entry(Budget, Some(start + Window))]
    requires req.now < start + Window
    modifies s`urls, s`limits
    ensures s.Valid() && r == Err(TooManyRequests) && s.urls == old(s.urls) && s.limits == old(s.limits)
  {
    ghost var urls, limits := s.urls, s.limits;
    r := s.CreateUrl(body, req, generatedKey, secretKey);
    CreateRateLimit(urls, s.clickLog, limits, body, req, generatedKey, secretKey);
  }

  /** Once the caller's window has run out, a request with a new key and secret key succeeds and opens a fresh window. */
  method AfterWindow(s: Service, body: UrlCreate, req: Request, generatedKey: string, secretKey: string, n: int, expired: int)
    returns (r: Result<UrlInfo, ApiError>)
    requires s.Valid() && req.client.Some? && s.limits == map[req.client.value := Entry(n, Some(expired))]
    requires expired <= req.now
    requires !HasKey(s.urls, ChosenKey(body.customKey, generatedKey)) && !HasSecret(s.urls, secretKey)
    modifies s`urls, s`limits
    ensures s.Valid() && r.Ok?
    ensures s.limits == map[req.client.value := Entry(1, Some(req.now + Window))]
  {
    ghost var urls, limits := s.urls, s.limits;
    r := s.CreateUrl(body, req, generatedKey, secretKey);
    CreateOutcomes(urls, s.clickLog, limits, body, req, generatedKey, secretKey);
  }

  /** A redirect to the only record, with nothing cached, is served from the table and fills the cache. */
  method FirstRedirect(s: Service, rec: UrlRecord, req: Request) returns (r: Result<string, ApiError>)
    requires s.Valid() && s.urls == [rec] && rec.isActive && s.cache == map[]
    modifies s`urls, s`clickLog, s`cache, s`pending
    ensures s.Valid() && r == Ok(rec.targetUrl)
    ensures s.urls == [rec.(clicks := rec.clicks + 1)]
    ensures s.clickLog == old(s.clickLog) + [NewClick(rec.key, req.client, req.userAgent, req.now)]
    ensures s.cache == map[rec.key := Entry(rec.targetUrl, Some(req.now + CacheTtl))]
    ensures s.pending == old(s.pending)
  {
    assert FirstMatch([rec], ActiveByKey(rec.key)) == Some(0);
    r := s.ForwardToTargetUrl(rec.key, req);
  }

  /** A redirect to a key cached until `expires` is answered from the cache and schedules its click. */
  method CachedRedirect(s: Service, key: string, target: string, expires: int, req: Request)
    returns (r: Result<string, ApiError>)
    requires s.Valid() && s.cache == map[key := Entry(target, Some(expires))] && req.now < expires && target != ""
    modifies s`urls, s`clickLog, s`cache, s`pending
    ensures s.Valid() && r == Ok(target)
    ensures s.urls == old(s.urls) && s.clickLog == old(s.clickLog) && s.cache == old(s.cache)
    ensures |s.pending| == |old(s.pending)| + 1 && s.pending[..|old(s.pending)|] == old(s.pending)
    ensures s.pending[|old(s.pending)|].task == ClickTask(key, req.client.GetOr(LocalHost), req.userAgent.GetOr(Unknown))
    ensures fresh(s.pending[|old(s.pending)|].db)
  {
    assert Get(s.cache, key, req.now) == Some(target);
    ForwardCountsClick(s.cache, s.urls, s.clickLog, key, req);
    r := s.ForwardToTargetUrl(key, req);
  }

  /** The one scheduled task for the only record's key counts its click when it commits. */
  method RunOnlyTask(s: Service, rec: UrlRecord, now: int) returns (ran: bool)
    requires s.Valid() && s.urls == [rec] && |s.pending| == 1 && s.pending[0].task.urlKey == rec.key
    modifies s`urls, s`clickLog, s`pending, s.pending[0].db
    ensures s.Valid() && ran && s.pending == []
    ensures s.urls == [rec.(clicks := rec.clicks + 1)]
  {
    assert FirstMatch([rec], ByKey(rec.key)) == Some(0);
    ran := s.RunBackgroundTask(false, now);
  }

  /** A custom alias is echoed back, a second request for it is refused with 400, and the alias redirects to its target. */
  method CustomAliasLifecycle()
    returns (created: Result<UrlInfo, ApiError>, duplicate: Result<UrlInfo, ApiError>, redirect: Result<string, ApiError>)
    ensures created.Ok? && created.value.key == "testlink"
    ensures created.value.clicks == 0 && created.value.isActive && created.value.clickEvents == []
    ensures created.value.url == Base + "testlink" && created.value.adminUrl == Base + "admin/" + "K9sQ2mLp"
    ensures duplicate == Err(AliasTaken) && Status(duplicate.error) == 400
    ensures redirect == Ok("https://www.google.com/")
  {
    var body := UrlCreate("https://www.google.com/", Some("testlink"));
    var s;
    s, created := FirstCreation(body, From("testclient", 0), "aB3xZ", "K9sQ2mLp");
    var rec := s.urls[0];
    assert rec.key == "testlink";
    duplicate := RepeatAlias(s, body, From("testclient", 1), "q7RtY", "Pq0wE9rT", 1, 0);
    redirect := FirstRedirect(s, rec, From("testclient", 2));
  }

  /**
   * Six creations from one address within a minute: the sixth gets 429, even
   * though four of the first five were refused as duplicate aliases, since the
   * counter is taken before the alias check. A minute after the first, the
   * window has closed and the address may create again.
   */
  method SixthCreationInWindowIsRejected()
    returns (first: Result<UrlInfo, ApiError>, duplicates: seq<Result<UrlInfo, ApiError>>,
             sixth: Result<UrlInfo, ApiError>, later: Result<UrlInfo, ApiError>)
    ensures first.Ok? && first.value.key == "demo"
    ensures duplicates == [Err(AliasTaken), Err(AliasTaken), Err(AliasTaken), Err(AliasTaken)]
    ensures sixth == Err(TooManyRequests) && Status(sixth.error) == 429
    ensures later.Ok?
  {
    var demo := UrlCreate("https://example.com/", Some("demo"));
    var other := UrlCreate("https://example.org/", None);
    var s;
    s, first := FirstCreation(demo, From("10.0.0.7", 0), "aB3xZ", "S3cr3t01");
    ghost var stored := s.urls;
    assert stored[0].key == "demo";
    var d1 := RepeatAlias(s, demo, From("10.0.0.7", 1), "aB3xZ", "S3cr3t01", 1, 0);
    var d2 := RepeatAlias(s, demo, From("10.0.0.7", 2), "aB3xZ", "S3cr3t01", 2, 0);
    var d3 := RepeatAlias(s, demo, From("10.0.0.7", 3), "aB3xZ", "S3cr3t01", 3, 0);
    var d4 := RepeatAlias(s, demo, From("10.0.0.7", 4), "aB3xZ", "S3cr3t01", 4, 0);
    duplicates := [d1, d2, d3, d4];
    sixth := OverBudget(s, other, From("10.0.0.7", 30), "mN4bV", "S3cr3t02", 0);
    QueriesFindHolders(stored, "mN4bV", "S3cr3t02");
    later := AfterWindow(s, other, From("10.0.0.7", 60), "mN4bV", "S3cr3t02", Budget, 60);
  }

  /**
   * Right after creation the handler's admin value has no click events; after
   * one redirect it has that one click, and from then on the value fails the
   * response model, so the client is answered 500.
   */
  method AdminViewFollowsClicks()
    returns (before: Result<UrlInfo, ApiError>, redirect: Result<string, ApiError>, after: Result<UrlInfo, ApiError>,
             served: Result<UrlInfo, ApiError>)
    ensures before.Ok? && before.value.key == "demo" && before.value.clicks == 0 && before.value.clickEvents == []
    ensures redirect == Ok("https://example.com/")
    ensures after.Ok? && after.value.key == "demo" && after.value.clicks == 1
    ensures after.value.clickEvents == [Click("demo", "10.0.0.7", Unknown, 5)]
    ensures served == Err(InvalidResponse) && Status(served.error) == 500
  {
    var s, created := FirstCreation(UrlCreate("https://example.com/", Some("demo")), From("10.0.0.7", 0), "aB3xZ", "S3cr3t01");
    var rec := s.urls[0];
    before := AdminView(s.urls, s.clickLog, "S3cr3t01", Base);
    redirect := FirstRedirect(s, rec, From("10.0.0.7", 5));
    assert ClickEvents(s.clickLog, "demo") == [Click("demo", "10.0.0.7", Unknown, 5)] by {
      EventsAppend([], Click("demo", "10.0.0.7", Unknown, 5), "demo");
    }
    after := AdminView(s.urls, s.clickLog, "S3cr3t01", Base);
    served := AdminResponse(s.urls, s.clickLog, "S3cr3t01", Base);
  }

  /**
   * The first redirect fills the cache; the second, within the time to live,
   * is answered from the cache with the same target and counted only when its
   * background task runs, so both redirects end up counted.
   */
  method CachedRedirectIsCountedLater()
    returns (first: Result<string, ApiError>, second: Result<string, ApiError>, ran: bool, clicks: nat)
    ensures first == Ok("https://example.com/") && second == first
    ensures ran && clicks == 2
  {
    var s, created := FirstCreation(UrlCreate("https://example.com/", Some("demo")), Request(None, None, Base, 0), "aB3xZ", "S3cr3t01");
    var rec := s.urls[0];
    first := FirstRedirect(s, rec, Request(None, None, Base, 10));
    second := CachedRedirect(s, "demo", "https://example.com/", 10 + CacheTtl, Request(Some("10.0.0.7"), Some("curl/8.0"), Base, 20));
    ran := RunOnlyTask(s, rec.(clicks := 1), 21);
    clicks := s.urls[0].clicks;
  }
}
