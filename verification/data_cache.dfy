/**
 * The page-data cache hook: values stored under a key with the time they were
 * stored, served for five minutes, dropped by the first read after that.
 * The clock is a parameter (milliseconds).
 */
module DataCache {
  import opened Wrappers

  /** Five minutes, in milliseconds. */
  const CacheDuration: int := 5 * 60 * 1000

  /** A stored value, reduced to what the cache observes of it: whether JavaScript treats it as falsy. */
  datatype JsValue = Falsy | Value(data: string)

  /** An entry has expired when its timestamp is truthy (non-zero) and more than five minutes old. */
  predicate Expired(stamps: map<string, int>, key: string, now: int) {
    key in stamps && stamps[key] != 0 && now - stamps[key] > CacheDuration
  }

  /** What `get` returns: null for an expired or missing entry, and for a falsy value. */
  function Lookup(values: map<string, JsValue>, stamps: map<string, int>, key: string, now: int): (r: Option<string>)
    ensures Expired(stamps, key, now) ==> r.None?
    ensures r.Some? <==> !Expired(stamps, key, now) && key in values && values[key].Value?
    ensures r.Some? ==> r.value == values[key].data
  {
    if Expired(stamps, key, now) then None
    else if key in values && values[key].Value? then Some(values[key].data)
    else None
  }

  class Cache {
    var values: map<string, JsValue>
    var stamps: map<string, int>

    constructor ()
      ensures values == map[] && stamps == map[]
    {
      values := map[];
      stamps := map[];
    }

    /** get: an expired entry is deleted from both maps; anything else is left as it was. */
    method Get(key: string, now: int) returns (r: Option<string>)
      modifies this
      ensures r == Lookup(old(values), old(stamps), key, now)
      ensures Expired(old(stamps), key, now) ==> values == old(values) - {key} && stamps == old(stamps) - {key}
      ensures !Expired(old(stamps), key, now) ==> values == old(values) && stamps == old(stamps)
    {
      if key in stamps && stamps[key] != 0 && now - stamps[key] > CacheDuration {
        values := values - {key};
        stamps := stamps - {key};
        return None;
      }
      if key in values && values[key].Value? {
        return Some(values[key].data);
      }
      return None;
    }

    /** set: stores the value and the current time under the key. */
    method Set(key: string, value: JsValue, now: int)
      modifies this
      ensures values == old(values)[key := value] && stamps == old(stamps)[key := now]
    {
      values := values[key := value];
      stamps := stamps[key := now];
    }

    /** clear(key) removes that key; clear() (or a falsy key) empties both maps. */
    method Clear(key: Option<string>)
      modifies this
      ensures Truthy(key) ==> values == old(values) - {key.value} && stamps == old(stamps) - {key.value}
      ensures !Truthy(key) ==> values == map[] && stamps == map[]
    {
      if key.Some? && key.value != "" {
        values := values - {key.value};
        stamps := stamps - {key.value};
      } else {
        values := map[];
        stamps := map[];
      }
    }
  }

  /** A value set at a non-zero time is read back for five minutes, the exact five-minute mark included. */
  lemma SetThenGet(values: map<string, JsValue>, stamps: map<string, int>, key: string, v: string, setAt: int, now: int)
    requires setAt != 0 && now - setAt <= CacheDuration
    ensures Lookup(values[key := Value(v)], stamps[key := setAt], key, now) == Some(v)
  {
  }

  /** One millisecond after the five-minute mark the same entry reads as null. */
  lemma ExpiresAfterFiveMinutes(values: map<string, JsValue>, stamps: map<string, int>, key: string, v: JsValue, setAt: int)
    requires setAt != 0
    ensures Lookup(values[key := v], stamps[key := setAt], key, setAt + CacheDuration + 1).None?
  {
  }

  /** A falsy value reads back as null even while fresh. */
  lemma FalsyReadsAsNull(values: map<string, JsValue>, stamps: map<string, int>, key: string, setAt: int, now: int)
    ensures Lookup(values[key := Falsy], stamps[key := setAt], key, now).None?
  {
  }

  /** Reading one key, or setting or clearing it, never changes what another key reads. */
  lemma OtherKeysUnaffected(values: map<string, JsValue>, stamps: map<string, int>, key: string, other: string, v: JsValue, t: int, now: int)
    requires other != key
    ensures Lookup(values[key := v], stamps[key := t], other, now) == Lookup(values, stamps, other, now)
    ensures Lookup(values - {key}, stamps - {key}, other, now) == Lookup(values, stamps, other, now)
  {
  }

  /** A get on a key that was never stored returns null and, by Get's contract, changes nothing. */
  method GetMissing(cache: Cache, key: string, now: int) returns (r: Option<string>)
    requires key !in cache.values && key !in cache.stamps
    modifies cache
    ensures r.None? && cache.values == old(cache.values) && cache.stamps == old(cache.stamps)
  {
    r := cache.Get(key, now);
  }
}
