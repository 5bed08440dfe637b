/**
 * The running service: one object holding the store (the `urls` table and the
 * `clicks` log), the Redis cache and counters, and the background tasks that
 * responses have scheduled. Each handler changes that state step by step as
 * the source does and is proved to leave exactly what the corresponding
 * function of the `Api` and `Analytics` modules describes.
 */
module Service {
  import opened Wrappers
  import opened Redis
  import opened Models
  import opened RateLimit
  import opened Analytics
  import opened Api

  /** A database session; only whether it has been closed is observable. */
  class Session {
    var closed: bool

    constructor ()
      ensures !closed
    {
      closed := false;
    }

    method Close()
      modifies this
      ensures closed
    {
      closed := true;
    }
  }

  /** A scheduled `record_click_stats` call with the fresh session it is given. */
  datatype Job = Job(task: ClickTask, db: Session)

  class Service {
    var urls: seq<UrlRecord>
    var clickLog: seq<Click>
    var cache: map<string, Entry<string>>
    var limits: map<string, Entry<int>>
    /** Background tasks scheduled by responses and not yet run, oldest first. */
    var pending: seq<Job>

    ghost predicate Valid()
      reads this
    {
      && StoreValid(urls, clickLog)
      && CacheConsistent(cache, urls)
      && CountersBounded(limits)
    }

    /** An empty store, cache and limiter. */
    constructor ()
      ensures Valid()
      ensures urls == [] && clickLog == [] && cache == map[] && limits == map[] && pending == []
    {
      urls, clickLog, cache, limits, pending := [], [], map[], map[], [];
    }

    /** `POST /url`. */
    method CreateUrl(body: UrlCreate, req: Request, generatedKey: string, secretKey: string)
      returns (r: Result<UrlInfo, ApiError>)
      requires Valid()
      modifies this`urls, this`limits
      ensures Valid()
      ensures var c := Create(old(urls), clickLog, old(limits), body, req, generatedKey, secretKey);
              r == c.response && urls == c.urls && limits == c.limits
    {
      var admitted := CountRequest(req.client.GetOr(LocalHost), req.now);
      if !admitted {
        r := Err(TooManyRequests);
      } else {
        var key := generatedKey;
        var aliasTaken := false;
        if IsCustom(body.customKey) {
          aliasTaken := FirstMatch(urls, ByKey(body.customKey.value)).Some?;
          key := body.customKey.value;
        }
        if aliasTaken {
          r := Err(AliasTaken);
        } else if FirstMatch(urls, ByKey(key)).Some? || FirstMatch(urls, BySecret(secretKey)).Some? {
          // the unique constraints on `key` and `secret_key`, enforced at commit
          r := Err(Conflict);
        } else {
          var record := NewRecord(key, secretKey, body.targetUrl, req.now);
          QueriesFindHolders(urls, key, secretKey);
          InsertUrl(record);
          r := Ok(Describe(record, clickLog, req.baseUrl));
        }
      }
    }

    /**
     * The limiter block of `POST /url`: GET the caller's counter, reject at the
     * budget, otherwise INCR it and, when GET found nothing, EXPIRE it after
     * `Window` seconds.
     */
    method CountRequest(ip: string, now: int) returns (admitted: bool)
      requires CountersBounded(limits)
      modifies this`limits
      ensures CountersBounded(limits)
      ensures admitted == Admit(old(limits), ip, now).Some?
      ensures limits == if admitted then Admit(old(limits), ip, now).value else old(limits)
    {
      var current := Get(limits, ip, now);
      if current.Some? && current.value >= Budget {
        return false;
      }
      AdmitKeepsCountersBounded(limits, ip, now);
      CallsAgreeAtOneInstant(limits, ip, now);
      limits := Incr(limits, ip, now);
      if current.None? {
        limits := Expire(limits, ip, Window, now);
      }
      admitted := true;
    }

    /** `db.add(db_url); db.commit()`: append a record whose key and secret key are new. */
    method InsertUrl(record: UrlRecord)
      requires Valid()
      requires !HasKey(urls, record.key) && !HasSecret(urls, record.secretKey) && record.clicks == 0
      modifies this`urls
      ensures Valid()
      ensures urls == old(urls) + [record]
    {
      InsertPreservesStore(urls, clickLog, record);
      EvolvesKeepsCache(cache, urls, urls + [record]);
      urls := urls + [record];
    }

    /** `db_url.clicks += 1; db.add(click); db.commit()` on the record at position `i`. */
    method LogClick(i: nat, click: Click)
      requires Valid() && i < |urls| && click.urlKey == urls[i].key
      modifies this`urls, this`clickLog
      ensures Valid()
      ensures urls == CountClick(old(urls), i) && clickLog == old(clickLog) + [click]
    {
      CountClickPreservesStore(urls, clickLog, i, click);
      EvolvesKeepsCache(cache, urls, CountClick(urls, i));
      urls, clickLog := CountClick(urls, i), clickLog + [click];
    }

    /** `redis.set("url:<key>", target, ex=CacheTtl)` for the record at position `i`. */
    method CacheTarget(i: nat, now: int)
      requires Valid() && i < |urls|
      modifies this`cache
      ensures Valid()
      ensures cache == SetEx(old(cache), urls[i].key, urls[i].targetUrl, CacheTtl, now)
    {
      CacheFillKeepsConsistent(cache, urls, i, now);
      cache := SetEx(cache, urls[i].key, urls[i].targetUrl, CacheTtl, now);
    }

    /** `GET /{url_key}`; a cache hit appends its task, with a fresh open session, to `pending`. */
    method ForwardToTargetUrl(urlKey: string, req: Request) returns (r: Result<string, ApiError>)
      requires Valid()
      modifies this`urls, this`clickLog, this`cache, this`pending
      ensures Valid()
      ensures var f := Forward(old(cache), old(urls), old(clickLog), urlKey, req);
              r == f.response && cache == f.cache && urls == f.urls && clickLog == f.log
      ensures var f := Forward(old(cache), old(urls), old(clickLog), urlKey, req);
              if f.scheduled.None? then pending == old(pending)
              else
                && |pending| == |old(pending)| + 1 && pending[..|old(pending)|] == old(pending)
                && pending[|old(pending)|].task == f.scheduled.value
                && fresh(pending[|old(pending)|].db) && !pending[|old(pending)|].db.closed
    {
      var cacheData := Get(cache, urlKey, req.now);
      if cacheData.Some? && cacheData.value != "" {
        var db := new Session();
        pending := pending + [Job(ClickTask(urlKey, req.client.GetOr(LocalHost), req.userAgent.GetOr(Unknown)), db)];
        r := Ok(cacheData.value);
      } else {
        var found := FirstMatch(urls, ActiveByKey(urlKey));
        if found.Some? {
          var i := found.value;
          var target := urls[i].targetUrl;
          CacheTarget(i, req.now);
          LogClick(i, NewClick(urlKey, req.client, req.userAgent, req.now));
          r := Ok(target);
        } else {
          r := Err(NotFound);
        }
      }
    }

    /** `record_click_stats(url_key, ip, user_agent, db)`: never raises, and closes the session on every path. */
    method RecordClickStats(urlKey: string, ip: string, userAgent: string, db: Session,
                            commitFails: bool, now: int)
      requires Valid()
      modifies this`urls, this`clickLog, db
      ensures Valid()
      ensures db.closed
      ensures Tables(urls, clickLog) == Record(old(urls), old(clickLog), ClickTask(urlKey, ip, userAgent), commitFails, now)
    {
      var found := FirstMatch(urls, ByKey(urlKey));
      if found.Some? {
        // the increment and the click stay in the session until the commit;
        // a failed commit is caught and logged, and closing the session drops them
        if !commitFails {
          LogClick(found.value, Click(urlKey, ip, userAgent, now));
        }
      }
      db.Close();
    }

    /** Runs the oldest scheduled background task, if there is one. */
    method RunBackgroundTask(commitFails: bool, now: int) returns (ran: bool)
      requires Valid()
      modifies this`urls, this`clickLog, this`pending, if pending == [] then {} else {pending[0].db}
      ensures Valid()
      ensures ran == (old(pending) != [])
      ensures !ran ==> urls == old(urls) && clickLog == old(clickLog) && pending == old(pending)
      ensures ran ==>
                var job := old(pending)[0];
                && pending == old(pending)[1..]
                && job.db.closed
                && Tables(urls, clickLog) == Record(old(urls), old(clickLog), job.task, commitFails, now)
    {
      if pending == [] {
        return false;
      }
      var job := pending[0];
      pending := pending[1..];
      RecordClickStats(job.task.urlKey, job.task.ip, job.task.userAgent, job.db, commitFails, now);
      ran := true;
    }
  }
}
