/**
 * The two tables of the store: URL records (`urls`) and the append-only log of
 * click events (`clicks`), with the column defaults, the queries the service
 * runs against them and the invariant the unique and foreign-key constraints
 * and the click accounting keep.
 */
module Models {
  import opened Wrappers

  /** Column default of `client_ip` and `user_agent`. */
  const Unknown := "Unknown"

  /** A row of `urls`; the surrogate `id` is the row's position in the table. */
  datatype UrlRecord = UrlRecord(
    key: string,
    secretKey: string,
    targetUrl: string,
    isActive: bool,
    clicks: nat,
    createdAt: int)

  /** A row of `clicks`; `urlKey` refers to `urls.key`. */
  datatype Click = Click(urlKey: string, clientIp: string, userAgent: string, timestamp: int)

  /** A record as inserted: active, no clicks, `created_at` set by the server clock. */
  function NewRecord(key: string, secretKey: string, targetUrl: string, now: int): UrlRecord {
    UrlRecord(key, secretKey, targetUrl, true, 0, now)
  }

  /**
   * A click as the redirect handler inserts it: an absent address or user
   * agent is replaced by "Unknown" in the handler itself, the same value as
   * the column default, which therefore never applies.
   */
  function NewClick(urlKey: string, clientIp: Option<string>, userAgent: Option<string>, now: int): Click {
    Click(urlKey, clientIp.GetOr(Unknown), userAgent.GetOr(Unknown), now)
  }

  /** The filters the service and the unique constraints apply to `urls`. */
  datatype Query =
    | ByKey(key: string)
    | BySecret(secret: string)
    | ActiveByKey(key: string)
    | ActiveBySecret(secret: string)

  predicate Matches(u: UrlRecord, q: Query) {
    match q
    case ByKey(k) => u.key == k
    case BySecret(s) => u.secretKey == s
    case ActiveByKey(k) => u.key == k && u.isActive
    case ActiveBySecret(s) => u.secretKey == s && u.isActive
  }

  /**
   * `query(URL).filter(...).first()`: a matching row, if any. Without
   * `order_by` the database fixes no order, so this takes the earliest; under
   * the unique constraints at most one row matches the key and secret-key
   * queries (`FindsUniqueRecord`), and the choice is immaterial.
   */
  function FirstMatch(urls: seq<UrlRecord>, q: Query): (r: Option<nat>)
    ensures r.Some? ==> r.value < |urls| && Matches(urls[r.value], q)
    ensures r.Some? ==> forall j :: 0 <= j < r.value ==> !Matches(urls[j], q)
    ensures r.None? <==> forall j :: 0 <= j < |urls| ==> !Matches(urls[j], q)
  {
    if urls == [] then None
    else if Matches(urls[0], q) then Some(0)
    else match FirstMatch(urls[1..], q)
      case None => None
      case Some(i) => Some(i + 1)
  }

  ghost predicate HasKey(urls: seq<UrlRecord>, k: string) {
    exists i :: 0 <= i < |urls| && urls[i].key == k
  }

  ghost predicate HasSecret(urls: seq<UrlRecord>, s: string) {
    exists i :: 0 <= i < |urls| && urls[i].secretKey == s
  }

  /** Some record with key `k` points at `t`. */
  ghost predicate HasTarget(urls: seq<UrlRecord>, k: string, t: string) {
    exists i :: 0 <= i < |urls| && urls[i].key == k && urls[i].targetUrl == t
  }

  /** The key and secret-key queries find a row exactly when some record holds that key or secret key. */
  lemma QueriesFindHolders(urls: seq<UrlRecord>, k: string, s: string)
    ensures FirstMatch(urls, ByKey(k)).Some? <==> HasKey(urls, k)
    ensures FirstMatch(urls, BySecret(s)).Some? <==> HasSecret(urls, s)
  {
    if HasKey(urls, k) {
      var i :| 0 <= i < |urls| && urls[i].key == k;
      assert Matches(urls[i], ByKey(k));
    }
    if HasSecret(urls, s) {
      var i :| 0 <= i < |urls| && urls[i].secretKey == s;
      assert Matches(urls[i], BySecret(s));
    }
  }

  /** The `click_events` relationship of the record with key `k`: the clicks whose `url_key` is `k`. The relationship has no `order_by`; the model lists them in log order. */
  function ClickEvents(log: seq<Click>, k: string): (r: seq<Click>)
    ensures |r| <= |log|
    ensures forall c :: c in r <==> c in log && c.urlKey == k
  {
    if log == [] then []
    else
      var last := log[|log| - 1];
      assert log == log[..|log| - 1] + [last];
      ClickEvents(log[..|log| - 1], k) + (if last.urlKey == k then [last] else [])
  }

  /**
   * The click events are the log filtered by key: each click under `k` appears
   * as often as it was logged (equal clicks are possible, rows having no `id`
   * here), and no other click appears.
   */
  lemma {:induction false} ClickEventsFilter(log: seq<Click>, k: string)
    ensures forall c :: multiset(ClickEvents(log, k))[c] == if c.urlKey == k then multiset(log)[c] else 0
  {
    if log != [] {
      var pre := log[..|log| - 1];
      ClickEventsFilter(pre, k);
      assert log == pre + [log[|log| - 1]];
    }
  }

  /** The number of clicks logged under key `k`: the aggregate the `clicks` counter keeps. */
  function ClickCount(log: seq<Click>, k: string): nat {
    if log == [] then 0
    else ClickCount(log[..|log| - 1], k) + (if log[|log| - 1].urlKey == k then 1 else 0)
  }

  /** The counted clicks are exactly the click events. */
  lemma {:induction false} ClickCountIsEvents(log: seq<Click>, k: string)
    ensures ClickCount(log, k) == |ClickEvents(log, k)|
  {
    if log != [] {
      ClickCountIsEvents(log[..|log| - 1], k);
    }
  }

  /** `unique=True` on `urls.key`. */
  ghost predicate UniqueKeys(urls: seq<UrlRecord>) {
    forall i, j :: 0 <= i < j < |urls| ==> urls[i].key != urls[j].key
  }

  /** `unique=True` on `urls.secret_key`. */
  ghost predicate UniqueSecrets(urls: seq<UrlRecord>) {
    forall i, j :: 0 <= i < j < |urls| ==> urls[i].secretKey != urls[j].secretKey
  }

  /** The foreign key `clicks.url_key -> urls.key`. */
  ghost predicate ClicksReferToUrls(urls: seq<UrlRecord>, log: seq<Click>) {
    forall c :: c in log ==> HasKey(urls, c.urlKey)
  }

  /** Every record's counter equals the number of its click events. */
  ghost predicate CountsMatch(urls: seq<UrlRecord>, log: seq<Click>) {
    forall i :: 0 <= i < |urls| ==> urls[i].clicks == ClickCount(log, urls[i].key)
  }

  ghost predicate StoreValid(urls: seq<UrlRecord>, log: seq<Click>) {
    && UniqueKeys(urls)
    && UniqueSecrets(urls)
    && ClicksReferToUrls(urls, log)
    && CountsMatch(urls, log)
  }

  /**
   * How the table may change: rows are only appended, and an existing row keeps
   * its key, secret key, target, flag and creation time while its counter never
   * goes down.
   */
  ghost predicate Evolves(before: seq<UrlRecord>, after: seq<UrlRecord>) {
    && |before| <= |after|
    && forall i :: 0 <= i < |before| ==>
         && after[i].key == before[i].key
         && after[i].secretKey == before[i].secretKey
         && after[i].targetUrl == before[i].targetUrl
         && after[i].isActive == before[i].isActive
         && after[i].createdAt == before[i].createdAt
         && after[i].clicks >= before[i].clicks
  }

  /** `db_url.clicks += 1` on the row at position `i`. */
  function CountClick(urls: seq<UrlRecord>, i: nat): seq<UrlRecord>
    requires i < |urls|
  {
    urls[i := urls[i].(clicks := urls[i].clicks + 1)]
  }

  /** Appending one click adds it to the events of its own key and of no other. */
  lemma EventsAppend(log: seq<Click>, c: Click, k: string)
    ensures ClickEvents(log + [c], k) == ClickEvents(log, k) + (if c.urlKey == k then [c] else [])
    ensures ClickCount(log + [c], k) == ClickCount(log, k) + (if c.urlKey == k then 1 else 0)
  {
    assert (log + [c])[..|log|] == log;
  }

  /** Under the foreign key, a key no record has has no click events. */
  lemma NoEventsForUnknownKey(urls: seq<UrlRecord>, log: seq<Click>, k: string)
    requires ClicksReferToUrls(urls, log)
    requires !HasKey(urls, k)
    ensures ClickEvents(log, k) == [] && ClickCount(log, k) == 0
  {
    ClickCountIsEvents(log, k);
  }

  /** Evolving the table keeps every key and every key's target. */
  lemma EvolvesKeepsKeys(before: seq<UrlRecord>, after: seq<UrlRecord>, k: string, t: string)
    requires Evolves(before, after)
    ensures HasKey(before, k) ==> HasKey(after, k)
    ensures HasTarget(before, k, t) ==> HasTarget(after, k, t)
  {
    if HasKey(before, k) {
      var i :| 0 <= i < |before| && before[i].key == k;
      assert after[i].key == k;
    }
    if HasTarget(before, k, t) {
      var i :| 0 <= i < |before| && before[i].key == k && before[i].targetUrl == t;
      assert after[i].key == k && after[i].targetUrl == t;
    }
  }

  lemma EvolvesKeepsReferences(before: seq<UrlRecord>, after: seq<UrlRecord>, log: seq<Click>)
    requires Evolves(before, after)
    requires ClicksReferToUrls(before, log)
    ensures ClicksReferToUrls(after, log)
  {
    forall c | c in log ensures HasKey(after, c.urlKey) {
      EvolvesKeepsKeys(before, after, c.urlKey, "");
    }
  }

  /** Inserting a record whose key and secret key are new, with no clicks, keeps the store invariant. */
  lemma InsertPreservesStore(urls: seq<UrlRecord>, log: seq<Click>, rec: UrlRecord)
    requires StoreValid(urls, log)
    requires !HasKey(urls, rec.key) && !HasSecret(urls, rec.secretKey)
    requires rec.clicks == 0
    ensures StoreValid(urls + [rec], log)
    ensures Evolves(urls, urls + [rec])
  {
    var after := urls + [rec];
    assert Evolves(urls, after);
    EvolvesKeepsReferences(urls, after, log);
    NoEventsForUnknownKey(urls, log, rec.key);
    assert after[|urls|] == rec;
  }

  /** Counting one click on record `i` and logging it under that record's key keeps the store invariant. */
  lemma CountClickPreservesStore(urls: seq<UrlRecord>, log: seq<Click>, i: nat, c: Click)
    requires StoreValid(urls, log)
    requires i < |urls| && c.urlKey == urls[i].key
    ensures StoreValid(CountClick(urls, i), log + [c])
    ensures Evolves(urls, CountClick(urls, i))
  {
    var after := CountClick(urls, i);
    assert Evolves(urls, after);
    forall d | d in log + [c] ensures HasKey(after, d.urlKey) {
      if d in log {
        EvolvesKeepsKeys(urls, after, d.urlKey, "");
      } else {
        assert after[i].key == d.urlKey;
      }
    }
    forall j | 0 <= j < |after| ensures after[j].clicks == ClickCount(log + [c], after[j].key) {
      EventsAppend(log, c, after[j].key);
    }
  }

  /** Under the unique constraints the key and secret-key queries find the one record holding them. */
  lemma FindsUniqueRecord(urls: seq<UrlRecord>, i: nat)
    requires UniqueKeys(urls) && UniqueSecrets(urls) && i < |urls|
    ensures FirstMatch(urls, ByKey(urls[i].key)) == Some(i)
    ensures urls[i].isActive ==> FirstMatch(urls, ActiveByKey(urls[i].key)) == Some(i)
    ensures urls[i].isActive ==> FirstMatch(urls, ActiveBySecret(urls[i].secretKey)) == Some(i)
  {
  }
}
