/**
 * The background click recorder: given a key, the client address and user
 * agent of a cached redirect, it counts the click on the record with that key
 * and logs it, all in one commit that may fail without any effect.
 */
module Analytics {
  import opened Wrappers
  import opened Models

  /** The arguments of one `record_click_stats` call, apart from its session. */
  datatype ClickTask = ClickTask(urlKey: string, ip: string, userAgent: string)

  /** Both tables of the store, as one value. */
  datatype Tables = Tables(urls: seq<UrlRecord>, log: seq<Click>)

  /**
   * The tables after `record_click_stats` runs `task` at `now`. The lookup is
   * by key alone (an inactive record is counted too); a key no record holds
   * and a failing commit leave both tables as they were.
   */
  function Record(urls: seq<UrlRecord>, log: seq<Click>, task: ClickTask, commitFails: bool, now: int): Tables {
    match FirstMatch(urls, ByKey(task.urlKey))
    case None => Tables(urls, log)
    case Some(i) =>
      if commitFails then Tables(urls, log)
      else Tables(CountClick(urls, i), log + [Click(task.urlKey, task.ip, task.userAgent, now)])
  }

  /**
   * A committed task for a stored key logs exactly one click, with the task's
   * fields verbatim, under that key and no other, and raises the counter of
   * the one record holding the key, leaving every other record as it was;
   * otherwise nothing changes.
   */
  lemma RecordCountsOnce(urls: seq<UrlRecord>, log: seq<Click>, task: ClickTask, commitFails: bool, now: int)
    requires StoreValid(urls, log)
    ensures var t := Record(urls, log, task, commitFails, now);
            if HasKey(urls, task.urlKey) && !commitFails then
              && |t.urls| == |urls|
              && (forall i :: 0 <= i < |urls| ==>
                    t.urls[i] == if urls[i].key == task.urlKey then urls[i].(clicks := urls[i].clicks + 1) else urls[i])
              && t.log == log + [Click(task.urlKey, task.ip, task.userAgent, now)]
              && ClickEvents(t.log, task.urlKey) ==
                 ClickEvents(log, task.urlKey) + [Click(task.urlKey, task.ip, task.userAgent, now)]
              && (forall k :: k != task.urlKey ==> ClickEvents(t.log, k) == ClickEvents(log, k))
            else
              t == Tables(urls, log)
  {
    QueriesFindHolders(urls, task.urlKey, "");
    if HasKey(urls, task.urlKey) && !commitFails {
      var c := Click(task.urlKey, task.ip, task.userAgent, now);
      forall k ensures ClickEvents(log + [c], k) == ClickEvents(log, k) + (if k == task.urlKey then [c] else []) {
        EventsAppend(log, c, k);
      }
    }
  }

  /** Recording keeps the store invariant and only lets the table evolve. */
  lemma RecordPreservesStore(urls: seq<UrlRecord>, log: seq<Click>, task: ClickTask, commitFails: bool, now: int)
    requires StoreValid(urls, log)
    ensures var t := Record(urls, log, task, commitFails, now);
            StoreValid(t.urls, t.log) && Evolves(urls, t.urls)
  {
    match FirstMatch(urls, ByKey(task.urlKey))
    case None =>
    case Some(i) =>
      if !commitFails {
        CountClickPreservesStore(urls, log, i, Click(task.urlKey, task.ip, task.userAgent, now));
      }
  }
}
