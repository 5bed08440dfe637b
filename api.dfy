/**
 * The request handlers of the URL shortener as functions from the state they
 * read (the store, the Redis cache `url:<key>` and the Redis counters
 * `rate_limit:<ip>`) to their response and the state they leave, with the
 * properties each handler keeps. Each Redis namespace is a map indexed by the
 * part of the key after its prefix; the prefixes differ, so the two never
 * share a key.
 */
module Api {
  import opened Wrappers
  import opened Redis
  import opened Models
  import opened RateLimit
  import opened Analytics

  /** Seconds a redirect target stays in the cache. */
  const CacheTtl := 10800

  /** Address used for rate limiting and background tasks when the request has no client. */
  const LocalHost := "127.0.0.1"

  /** The errors the handlers raise, by HTTP status. */
  datatype ApiError =
    | TooManyRequests  // 429
    | AliasTaken       // 400
    | NotFound         // 404
    | Conflict         // unique-constraint violation at commit, not handled: 500
    | InvalidResponse  // the returned value fails the `URLInfo` response model: 500

  function Status(e: ApiError): int {
    match e
    case TooManyRequests => 429
    case AliasTaken => 400
    case NotFound => 404
    case Conflict => 500
    case InvalidResponse => 500
  }

  /**
   * What a handler reads from the request besides its path: the client
   * address, the `user-agent` header, the base URL, and the server clock.
   */
  datatype Request = Request(client: Option<string>, userAgent: Option<string>, baseUrl: string, now: int)

  /** The body of `POST /url`. */
  datatype UrlCreate = UrlCreate(targetUrl: string, customKey: Option<string>)

  /** The `URLInfo` response: the record's columns, the two derived URLs and its click events. */
  datatype UrlInfo = UrlInfo(
    key: string,
    targetUrl: string,
    isActive: bool,
    clicks: nat,
    url: string,
    adminUrl: string,
    clickEvents: seq<Click>)

  function Describe(u: UrlRecord, log: seq<Click>, baseUrl: string): UrlInfo {
    UrlInfo(u.key, u.targetUrl, u.isActive, u.clicks, baseUrl + u.key, baseUrl + "admin/" + u.secretKey,
            ClickEvents(log, u.key))
  }

  /** A falsy `custom_key` (absent or empty) means "generate one". */
  predicate IsCustom(customKey: Option<string>) {
    customKey.Some? && customKey.value != ""
  }

  /** The key a create request inserts under. */
  function ChosenKey(customKey: Option<string>, generatedKey: string): string {
    if IsCustom(customKey) then customKey.value else generatedKey
  }

  /** A cache read that redirects: a live entry whose value is a non-empty string. */
  function CacheHit(cache: map<string, Entry<string>>, urlKey: string, now: int): Option<string> {
    match Get(cache, urlKey, now)
    case Some(t) => if t != "" then Some(t) else None
    case None => None
  }

  /** Every cached target is the target of the record holding that key, and every cache entry expires. */
  ghost predicate CacheConsistent(cache: map<string, Entry<string>>, urls: seq<UrlRecord>) {
    forall k :: k in cache ==> cache[k].expiresAt.Some? && HasTarget(urls, k, cache[k].value)
  }

  lemma EvolvesKeepsCache(cache: map<string, Entry<string>>, before: seq<UrlRecord>, after: seq<UrlRecord>)
    requires CacheConsistent(cache, before) && Evolves(before, after)
    ensures CacheConsistent(cache, after)
  {
    forall k | k in cache ensures HasTarget(after, k, cache[k].value) {
      EvolvesKeepsKeys(before, after, k, cache[k].value);
    }
  }

  /** Caching a record's own target under its key keeps the cache consistent. */
  lemma CacheFillKeepsConsistent(cache: map<string, Entry<string>>, urls: seq<UrlRecord>, i: nat, now: int)
    requires CacheConsistent(cache, urls) && i < |urls|
    ensures CacheConsistent(SetEx(cache, urls[i].key, urls[i].targetUrl, CacheTtl, now), urls)
  {
    var filled := SetEx(cache, urls[i].key, urls[i].targetUrl, CacheTtl, now);
    forall k | k in filled ensures filled[k].expiresAt.Some? && HasTarget(urls, k, filled[k].value) {
      if k == urls[i].key {
        assert urls[i].key == k && urls[i].targetUrl == filled[k].value;
      }
    }
  }

  // ---------------------------------------------------------------- POST /url

  /** The response of `POST /url` and the table and counters it leaves. */
  datatype Created = Created(response: Result<UrlInfo, ApiError>, urls: seq<UrlRecord>, limits: map<string, Entry<int>>)

  /**
   * `POST /url` with `body`, where `generatedKey` and `secretKey` are what the
   * key generator returns. The limiter runs first and, once it admits the
   * request, its count stands whatever happens next. A custom key already held
   * by a record (active or not) is refused; a generated key or a secret key
   * that collides fails at commit; otherwise one record is appended.
   */
  function Create(urls: seq<UrlRecord>, log: seq<Click>, limits: map<string, Entry<int>>,
                  body: UrlCreate, req: Request, generatedKey: string, secretKey: string): Created
  {
    match Admit(limits, req.client.GetOr(LocalHost), req.now)
    case None => Created(Err(TooManyRequests), urls, limits)
    case Some(counted) =>
      var key := ChosenKey(body.customKey, generatedKey);
      if IsCustom(body.customKey) && FirstMatch(urls, ByKey(key)).Some? then
        Created(Err(AliasTaken), urls, counted)
      else if FirstMatch(urls, ByKey(key)).Some? || FirstMatch(urls, BySecret(secretKey)).Some? then
        Created(Err(Conflict), urls, counted)
      else
        var record := NewRecord(key, secretKey, body.targetUrl, req.now);
        Created(Ok(Describe(record, log, req.baseUrl)), urls + [record], counted)
  }

  /** The limiter alone decides the 429 response, which leaves everything as it was. */
  lemma CreateRateLimit(urls: seq<UrlRecord>, log: seq<Click>, limits: map<string, Entry<int>>,
                        body: UrlCreate, req: Request, generatedKey: string, secretKey: string)
    ensures var c := Create(urls, log, limits, body, req, generatedKey, secretKey);
            var admitted := Admit(limits, req.client.GetOr(LocalHost), req.now);
            && (c.response == Err(TooManyRequests) <==> admitted.None?)
            && (admitted.None? ==> c.urls == urls && c.limits == limits)
            && (admitted.Some? ==> c.limits == admitted.value)
  {
  }

  /**
   * Once admitted: 400 exactly when the custom key is held, 500 exactly when
   * the generated key or the secret key collides, and success exactly when the
   * key and the secret key are both new, with one active record with no
   * clicks appended and returned with its derived URLs.
   */
  lemma CreateOutcomes(urls: seq<UrlRecord>, log: seq<Click>, limits: map<string, Entry<int>>,
                       body: UrlCreate, req: Request, generatedKey: string, secretKey: string)
    requires StoreValid(urls, log)
    requires Admit(limits, req.client.GetOr(LocalHost), req.now).Some?
    ensures var c := Create(urls, log, limits, body, req, generatedKey, secretKey);
            var key := ChosenKey(body.customKey, generatedKey);
            var aliasTaken := IsCustom(body.customKey) && HasKey(urls, key);
            var collides := HasKey(urls, key) || HasSecret(urls, secretKey);
            && (c.response == Err(AliasTaken) <==> aliasTaken)
            && (c.response == Err(Conflict) <==> !aliasTaken && collides)
            && (c.response.Ok? <==> !collides)
            && (c.response.Err? ==> c.urls == urls)
            && (c.response.Ok? ==>
                  && c.urls == urls + [NewRecord(key, secretKey, body.targetUrl, req.now)]
                  && c.response.value == UrlInfo(key, body.targetUrl, true, 0, req.baseUrl + key,
                                                 req.baseUrl + "admin/" + secretKey, []))
  {
    var key := ChosenKey(body.customKey, generatedKey);
    QueriesFindHolders(urls, key, secretKey);
    if !HasKey(urls, key) {
      NoEventsForUnknownKey(urls, log, key);
    }
  }

  /** Creation keeps the store invariant and the counter bounds, and only appends to the table. */
  lemma CreatePreservesStore(urls: seq<UrlRecord>, log: seq<Click>, limits: map<string, Entry<int>>,
                             body: UrlCreate, req: Request, generatedKey: string, secretKey: string)
    requires StoreValid(urls, log) && CountersBounded(limits)
    ensures var c := Create(urls, log, limits, body, req, generatedKey, secretKey);
            StoreValid(c.urls, log) && Evolves(urls, c.urls) && CountersBounded(c.limits)
  {
    var ip := req.client.GetOr(LocalHost);
    if Admit(limits, ip, req.now).Some? {
      AdmitKeepsCountersBounded(limits, ip, req.now);
      var key := ChosenKey(body.customKey, generatedKey);
      QueriesFindHolders(urls, key, secretKey);
      if !HasKey(urls, key) && !HasSecret(urls, secretKey) {
        InsertPreservesStore(urls, log, NewRecord(key, secretKey, body.targetUrl, req.now));
      }
    }
  }

  /** The URLs a successful creation returns work: the admin URL shows the same answer and the short URL has a QR code. */
  lemma CreatedIsVisible(urls: seq<UrlRecord>, log: seq<Click>, limits: map<string, Entry<int>>,
                         body: UrlCreate, req: Request, generatedKey: string, secretKey: string)
    requires StoreValid(urls, log)
    ensures var c := Create(urls, log, limits, body, req, generatedKey, secretKey);
            c.response.Ok? ==>
              && AdminView(c.urls, log, secretKey, req.baseUrl) == c.response
              && QrLink(c.urls, c.response.value.key, req.baseUrl) == Ok(c.response.value.url)
  {
    var c := Create(urls, log, limits, body, req, generatedKey, secretKey);
    if c.response.Ok? {
      var key := ChosenKey(body.customKey, generatedKey);
      var record := NewRecord(key, secretKey, body.targetUrl, req.now);
      QueriesFindHolders(urls, key, secretKey);
      InsertPreservesStore(urls, log, record);
      FindsUniqueRecord(urls + [record], |urls|);
    }
  }

  // ----------------------------------------------------------- GET /{url_key}

  /** The response of `GET /{url_key}`, the state it leaves and the background task it schedules, if any. */
  datatype Forwarded = Forwarded(
    response: Result<string, ApiError>,
    cache: map<string, Entry<string>>,
    urls: seq<UrlRecord>,
    log: seq<Click>,
    scheduled: Option<ClickTask>)

  /**
   * `GET /{url_key}`. A cache hit answers from the cache, leaves store and
   * cache alone and schedules `record_click_stats`. A miss looks for an active
   * record: if there is one, its target is cached for `CacheTtl` seconds, its
   * counter goes up by one and one click is logged; otherwise 404.
   */
  function Forward(cache: map<string, Entry<string>>, urls: seq<UrlRecord>, log: seq<Click>,
                   urlKey: string, req: Request): Forwarded
  {
    match CacheHit(cache, urlKey, req.now)
    case Some(target) =>
      Forwarded(Ok(target), cache, urls, log,
                Some(ClickTask(urlKey, req.client.GetOr(LocalHost), req.userAgent.GetOr(Unknown))))
    case None =>
      match FirstMatch(urls, ActiveByKey(urlKey))
      case None => Forwarded(Err(NotFound), cache, urls, log, None)
      case Some(i) =>
        Forwarded(Ok(urls[i].targetUrl), SetEx(cache, urlKey, urls[i].targetUrl, CacheTtl, req.now),
                  CountClick(urls, i), log + [NewClick(urlKey, req.client, req.userAgent, req.now)], None)
  }

  /**
   * Every redirect, from the cache or from the table, goes to the target of the
   * record holding the key; the request fails, with 404 and no effect, exactly
   * when the cache misses and no active record holds the key.
   */
  lemma ForwardRedirectsToRecord(cache: map<string, Entry<string>>, urls: seq<UrlRecord>, log: seq<Click>,
                                 urlKey: string, req: Request)
    requires StoreValid(urls, log) && CacheConsistent(cache, urls)
    ensures var f := Forward(cache, urls, log, urlKey, req);
            && (f.response.Ok? ==>
                  && FirstMatch(urls, ByKey(urlKey)).Some?
                  && f.response.value == urls[FirstMatch(urls, ByKey(urlKey)).value].targetUrl)
            && (f.response.Err? <==>
                  CacheHit(cache, urlKey, req.now).None? && FirstMatch(urls, ActiveByKey(urlKey)).None?)
            && (f.response.Err? ==> f == Forwarded(Err(NotFound), cache, urls, log, None))
  {
    match CacheHit(cache, urlKey, req.now)
    case Some(target) =>
      var j :| 0 <= j < |urls| && urls[j].key == urlKey && urls[j].targetUrl == target;
      FindsUniqueRecord(urls, j);
    case None =>
      match FirstMatch(urls, ActiveByKey(urlKey))
      case None =>
      case Some(i) =>
        FindsUniqueRecord(urls, i);
  }

  /**
   * A cache hit changes no table and schedules one task with the request's
   * address and user agent (or their defaults). A miss on an active record
   * appends exactly one click to the log, under the key, raises that record's
   * counter by one, leaves every other record as it was and sets exactly that
   * key's cache entry, expiring `CacheTtl` seconds later, so that every
   * redirect within that time is a hit.
   */
  lemma ForwardCountsClick(cache: map<string, Entry<string>>, urls: seq<UrlRecord>, log: seq<Click>,
                           urlKey: string, req: Request)
    ensures var f := Forward(cache, urls, log, urlKey, req);
            CacheHit(cache, urlKey, req.now).Some? ==>
              && f.urls == urls && f.log == log && f.cache == cache
              && f.scheduled == Some(ClickTask(urlKey, req.client.GetOr(LocalHost), req.userAgent.GetOr(Unknown)))
    ensures var f := Forward(cache, urls, log, urlKey, req);
            var found := FirstMatch(urls, ActiveByKey(urlKey));
            CacheHit(cache, urlKey, req.now).None? && found.Some? ==>
              var target := urls[found.value].targetUrl;
              && f.scheduled.None?
              && |f.urls| == |urls|
              && (forall j :: 0 <= j < |urls| ==>
                    f.urls[j] == if j == found.value then urls[j].(clicks := urls[j].clicks + 1) else urls[j])
              && f.log == log + [NewClick(urlKey, req.client, req.userAgent, req.now)]
              && ClickEvents(f.log, urlKey) == ClickEvents(log, urlKey) + [NewClick(urlKey, req.client, req.userAgent, req.now)]
              && (forall k :: k != urlKey ==> ClickEvents(f.log, k) == ClickEvents(log, k))
              && f.cache == cache[urlKey := Entry(target, Some(req.now + CacheTtl))]
              && (target != "" ==> forall t :: req.now <= t < req.now + CacheTtl ==> CacheHit(f.cache, urlKey, t) == Some(target))
  {
    var found := FirstMatch(urls, ActiveByKey(urlKey));
    if CacheHit(cache, urlKey, req.now).None? && found.Some? {
      var click := NewClick(urlKey, req.client, req.userAgent, req.now);
      forall k ensures ClickEvents(log + [click], k) == ClickEvents(log, k) + (if k == urlKey then [click] else []) {
        EventsAppend(log, click, k);
      }
    }
  }

  /** A redirect keeps the store invariant and the cache consistent, and only lets the table evolve. */
  lemma ForwardPreservesStore(cache: map<string, Entry<string>>, urls: seq<UrlRecord>, log: seq<Click>,
                              urlKey: string, req: Request)
    requires StoreValid(urls, log) && CacheConsistent(cache, urls)
    ensures var f := Forward(cache, urls, log, urlKey, req);
            StoreValid(f.urls, f.log) && CacheConsistent(f.cache, f.urls) && Evolves(urls, f.urls)
  {
    if CacheHit(cache, urlKey, req.now).None? {
      match FirstMatch(urls, ActiveByKey(urlKey))
      case None =>
      case Some(i) =>
        var click := NewClick(urlKey, req.client, req.userAgent, req.now);
        CacheFillKeepsConsistent(cache, urls, i, req.now);
        CountClickPreservesStore(urls, log, i, click);
        EvolvesKeepsCache(SetEx(cache, urlKey, urls[i].targetUrl, CacheTtl, req.now), urls, CountClick(urls, i));
    }
  }

  /**
   * The click a cache hit defers is counted as the table path would have
   * counted it: once the scheduled task commits at the same moment, the
   * tables are those a miss would have produced (for a request that has a
   * client address, since the two paths default a missing one differently).
   */
  lemma DeferredCountMatchesDirect(cache: map<string, Entry<string>>, urls: seq<UrlRecord>, log: seq<Click>,
                                   urlKey: string, req: Request)
    requires StoreValid(urls, log)
    requires CacheHit(cache, urlKey, req.now).Some? && FirstMatch(urls, ActiveByKey(urlKey)).Some?
    requires req.client.Some?
    ensures var f := Forward(cache, urls, log, urlKey, req);
            var direct := Forward(map[], urls, log, urlKey, req);
            && f.scheduled.Some?
            && Record(f.urls, f.log, f.scheduled.value, false, req.now) == Tables(direct.urls, direct.log)
  {
    FindsUniqueRecord(urls, FirstMatch(urls, ActiveByKey(urlKey)).value);
  }

  // ------------------------------------------------ GET /{url_key}/qr, GET /admin/{secret_key}

  /** `GET /{url_key}/qr`: the short URL the QR image encodes, for an active key. */
  function QrLink(urls: seq<UrlRecord>, urlKey: string, baseUrl: string): (r: Result<string, ApiError>)
    ensures r.Ok? <==> exists i :: 0 <= i < |urls| && urls[i].key == urlKey && urls[i].isActive
    ensures r.Ok? ==> r.value == baseUrl + urlKey
    ensures r.Err? ==> r.error == NotFound
  {
    if FirstMatch(urls, ActiveByKey(urlKey)).None? then Err(NotFound) else Ok(baseUrl + urlKey)
  }

  /** `GET /admin/{secret_key}`: the active record with that secret key, with its derived URLs and click events. */
  function AdminView(urls: seq<UrlRecord>, log: seq<Click>, secretKey: string, baseUrl: string): (r: Result<UrlInfo, ApiError>)
    ensures r.Err? <==> forall i :: 0 <= i < |urls| ==> !(urls[i].secretKey == secretKey && urls[i].isActive)
    ensures r.Err? ==> r.error == NotFound
    ensures r.Ok? ==>
              exists i :: 0 <= i < |urls| && urls[i].secretKey == secretKey && urls[i].isActive &&
                r.value == UrlInfo(urls[i].key, urls[i].targetUrl, true, urls[i].clicks,
                                   baseUrl + urls[i].key, baseUrl + "admin/" + secretKey,
                                   ClickEvents(log, urls[i].key))
  {
    match FirstMatch(urls, ActiveBySecret(secretKey))
    case None => Err(NotFound)
    case Some(i) => Ok(Describe(urls[i], log, baseUrl))
  }

  /**
   * What a client of `GET /admin/{secret_key}` receives: the handler's value
   * validated against the `URLInfo` response model. Each `ClickInfo` there
   * demands a `country` and a `city`, which a click row does not have, so a
   * value listing any click event fails validation and the answer is 500.
   */
  function AdminResponse(urls: seq<UrlRecord>, log: seq<Click>, secretKey: string, baseUrl: string): Result<UrlInfo, ApiError> {
    match AdminView(urls, log, secretKey, baseUrl)
    case Err(e) => Err(e)
    case Ok(info) => if info.clickEvents == [] then Ok(info) else Err(InvalidResponse)
  }

  /**
   * In a consistent store the admin page is served exactly while its record
   * has never been clicked; from the first click on, the page answers 500.
   */
  lemma AdminServedOnlyBeforeFirstClick(urls: seq<UrlRecord>, log: seq<Click>, secretKey: string, baseUrl: string)
    requires StoreValid(urls, log)
    ensures AdminResponse(urls, log, secretKey, baseUrl).Ok? <==>
            exists i :: 0 <= i < |urls| && urls[i].secretKey == secretKey && urls[i].isActive && urls[i].clicks == 0
    ensures AdminView(urls, log, secretKey, baseUrl).Ok? && AdminResponse(urls, log, secretKey, baseUrl).Err? ==>
            AdminResponse(urls, log, secretKey, baseUrl) == Err(InvalidResponse)
  {
    match FirstMatch(urls, ActiveBySecret(secretKey))
    case None =>
    case Some(i) =>
      ClickCountIsEvents(log, urls[i].key);
      assert forall j :: 0 <= j < |urls| && urls[j].secretKey == secretKey && urls[j].isActive ==> j == i;
  }
}
