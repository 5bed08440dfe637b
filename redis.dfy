/**
 * The part of Redis the service relies on: string keys whose entries may carry
 * an absolute expiry time. Time is an explicit clock `now` in seconds; an entry
 * whose expiry time has been reached behaves exactly like a missing key.
 */
module Redis {
  import opened Wrappers

  datatype Entry<V> = Entry(value: V, expiresAt: Option<int>)

  /** An entry is visible at `now` unless its expiry time has been reached. */
  predicate Live<V>(e: Entry<V>, now: int) {
    e.expiresAt.None? || now < e.expiresAt.value
  }

  /** GET: the value of a live key; a missing or expired key reads as None. */
  function Get<V>(db: map<string, Entry<V>>, k: string, now: int): Option<V> {
    if k in db && Live(db[k], now) then Some(db[k].value) else None
  }

  /** SET with EX: overwrite the key, expiring `seconds` from now. */
  function SetEx<V>(db: map<string, Entry<V>>, k: string, v: V, seconds: int, now: int): map<string, Entry<V>> {
    db[k := Entry(v, Some(now + seconds))]
  }

  /** INCR: a live key is incremented and keeps its expiry; a missing or expired key becomes 1 with no expiry. */
  function Incr(db: map<string, Entry<int>>, k: string, now: int): map<string, Entry<int>> {
    if k in db && Live(db[k], now) then db[k := db[k].(value := db[k].value + 1)]
    else db[k := Entry(1, None)]
  }

  /** EXPIRE: a live key expires `seconds` from now; a missing key is left alone. */
  function Expire<V>(db: map<string, Entry<V>>, k: string, seconds: int, now: int): map<string, Entry<V>> {
    if k in db && Live(db[k], now) then db[k := db[k].(expiresAt := Some(now + seconds))] else db
  }
}
