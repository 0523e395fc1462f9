/**
 * The event-name cache of lib/event-cache.ts: labels typed for a photo are kept in the browser's
 * `localStorage` under a key built from the photo's date and file name, read back when the same
 * photo is added again, and dropped after 30 days. `localStorage` is a map from keys to what
 * `JSON.parse` makes of the stored text; `Date.now()` is a parameter.
 */
module EventCache {
  import opened Wrappers
  import opened Decimal
  import opened JsText
  import opened TimelineCards

  /** The characters `[a-zA-Z0-9]` keeps. */
  predicate IsAlnum(c: char)
  {
    'a' <= c <= 'z' || 'A' <= c <= 'Z' || '0' <= c <= '9'
  }

  /** `filename.replace(/[^a-zA-Z0-9]/g, "_")`: every other character becomes an underscore. */
  function CleanFilename(s: string): (t: string)
    ensures |t| == |s|
    ensures forall i :: 0 <= i < |s| ==> t[i] == if IsAlnum(s[i]) then s[i] else '_'
  {
    if s == [] then [] else [if IsAlnum(s[0]) then s[0] else '_'] + CleanFilename(s[1..])
  }

  /** A cleaned name holds only letters, digits and underscores, so cleaning it again changes nothing. */
  lemma CleanIdempotent(s: string)
    ensures forall i :: 0 <= i < |s| ==> IsAlnum(CleanFilename(s)[i]) || CleanFilename(s)[i] == '_'
    ensures CleanFilename(CleanFilename(s)) == CleanFilename(s)
  {
    var t := CleanFilename(s);
    assert forall i :: 0 <= i < |t| ==> CleanFilename(t)[i] == t[i];
  }

  /** A decimal number holds digits and a leading minus sign, never a letter or an underscore. */
  lemma DecimalChars(i: int)
    ensures forall j :: 0 <= j < |IntToString(i)| ==> IsDigit(IntToString(i)[j]) || IntToString(i)[j] == '-'
  {
    if i < 0 {
      assert forall j :: 1 <= j < |IntToString(i)| ==> IntToString(i)[j] == NatToString(-i)[j - 1];
    }
  }

  /**
   * `generateCacheKey(fullDate, filename)`: "file_" and the cleaned name for an undated photo,
   * otherwise `getTime()` in decimal, "_" and the cleaned name. The key ends with the cleaned
   * name after an underscore, and it starts with "file_" exactly when there is no date.
   */
  function GenerateCacheKey(fullDate: Option<Instant>, filename: string): (key: string)
    ensures |key| > |filename| && key[|key| - |filename| - 1] == '_'
    ensures key[|key| - |filename|..] == CleanFilename(filename)
    ensures StartsWith(key, "file_") <==> fullDate.None?
  {
    if fullDate.None? then
      "file_" + CleanFilename(filename)
    else
      var timestamp := fullDate.value.time;
      var cleanFilename := CleanFilename(filename);
      DecimalChars(timestamp);
      var key := IntToString(timestamp) + "_" + cleanFilename;
      assert key[0] == IntToString(timestamp)[0];
      key
  }

  /**
   * Two photos share a key only when both are undated or both carry the same instant, and their
   * names clean to the same text.
   */
  lemma CacheKeyInjective(d1: Option<Instant>, f1: string, d2: Option<Instant>, f2: string)
    requires GenerateCacheKey(d1, f1) == GenerateCacheKey(d2, f2)
    ensures d1.None? <==> d2.None?
    ensures CleanFilename(f1) == CleanFilename(f2)
    ensures d1.Some? && d2.Some? ==> d1.value.time == d2.value.time
  {
    var key := GenerateCacheKey(d1, f1);
    if d1.Some? && d2.Some? {
      DecimalChars(d1.value.time);
      DecimalChars(d2.value.time);
      SplitAtUnderscore(IntToString(d1.value.time), CleanFilename(f1), IntToString(d2.value.time), CleanFilename(f2));
      IntToStringRoundTrip(d1.value.time);
      IntToStringRoundTrip(d2.value.time);
    } else if d1.None? && d2.None? {
      assert CleanFilename(f1) == key[5..] == CleanFilename(f2);
    }
  }

  /** A key made of a decimal number, "_" and a rest splits back into the same two parts. */
  lemma SplitAtUnderscore(a: string, x: string, b: string, y: string)
    requires forall j :: 0 <= j < |a| ==> IsDigit(a[j]) || a[j] == '-'
    requires forall j :: 0 <= j < |b| ==> IsDigit(b[j]) || b[j] == '-'
    requires a + "_" + x == b + "_" + y
    ensures a == b && x == y
  {
    var k := a + "_" + x;
    assert k[|a|] == '_' && k[|b|] == '_';
    assert forall j :: 0 <= j < |a| ==> k[j] == a[j];
    assert forall j :: 0 <= j < |b| ==> k[j] == b[j];
    assert |a| == |b|;
    assert a == k[..|a|] == b;
    assert x == k[|a| + 1..] == y;
  }

  /** The prefix every entry of the cache is stored under. */
  const KeyPrefix: string := "timeline_event_"

  /** 30 days in milliseconds, the default age limit of `clearOldCache`. */
  const DefaultMaxAge: int := 30 * 24 * 60 * 60 * 1000

  /** The `localStorage` key of a cache key. */
  function StorageKey(cacheKey: string): (k: string)
    ensures StartsWith(k, KeyPrefix) && k[|KeyPrefix|..] == cacheKey
  {
    KeyPrefix + cacheKey
  }

  /** Different cache keys are stored under different storage keys. */
  lemma StorageKeyInjective(a: string, b: string)
    requires StorageKey(a) == StorageKey(b)
    ensures a == b
  {
    assert a == StorageKey(a)[|KeyPrefix|..];
  }

  /**
   * What the stored text of a key parses to:
   * - `Event`: a parsed value whose `timestamp` the `-` in `now - parsed.timestamp` converts to
   *   a number. `timestamp` is that number: a number stays itself; `null`, `false`, `""` and
   *   `[]` become 0; `true` becomes 1; a numeric string `"n"` and `[n]` become n;
   * - `NoTime`: a parsed value for which `now - parsed.timestamp` is `NaN`: the timestamp is
   *   missing, an object, or a string or array that is not a number. `eventName` is its name,
   *   or "" when the name is missing;
   * - `Blank`: the empty string, which the code treats as missing;
   * - `Unparsable`: text `JSON.parse` rejects, or `null`, whose fields cannot be read.
   */
  datatype Entry = Event(eventName: string, timestamp: int) | NoTime(eventName: string) | Blank | Unparsable

  /** An entry whose `eventName` the code reads: a parsed value that is not `null`. */
  predicate Named(e: Entry)
  {
    e.Event? || e.NoTime?
  }

  /**
   * `loadEventName(cacheKey)` on readable storage: the stored name when an event is stored
   * under the key and its name is not empty, `null` otherwise.
   */
  function LoadFrom(items: map<string, Entry>, cacheKey: string): (r: Option<string>)
  {
    var key := StorageKey(cacheKey);
    if key in items && Named(items[key]) && items[key].eventName != "" then Some(items[key].eventName) else None
  }

  /**
   * What `clearOldCache` removes: a cache entry older than `maxAgeMs`, or one whose fields cannot
   * be read. An entry without a numeric timestamp stays, since `NaN > maxAgeMs` is false.
   */
  predicate Expired(key: string, entry: Entry, now: int, maxAgeMs: int)
  {
    StartsWith(key, KeyPrefix) && (entry.Unparsable? || (entry.Event? && now - entry.timestamp > maxAgeMs))
  }

  /** The store after `clearOldCache(maxAgeMs)` at time `now`. */
  function Cleared(items: map<string, Entry>, now: int, maxAgeMs: int): map<string, Entry>
  {
    map k | k in items && !Expired(k, items[k], now, maxAgeMs) :: items[k]
  }

  /** A saved name is read back, unless it is empty. */
  lemma SaveThenLoad(items: map<string, Entry>, cacheKey: string, eventName: string, now: int)
    ensures LoadFrom(items[StorageKey(cacheKey) := Event(eventName, now)], cacheKey)
         == if eventName == "" then None else Some(eventName)
  {
  }

  /** Saving under one cache key leaves what every other key loads unchanged. */
  lemma SaveKeepsOtherKeys(items: map<string, Entry>, cacheKey: string, eventName: string, now: int, other: string)
    requires other != cacheKey
    ensures LoadFrom(items[StorageKey(cacheKey) := Event(eventName, now)], other) == LoadFrom(items, other)
  {
    if StorageKey(other) == StorageKey(cacheKey) {
      StorageKeyInjective(other, cacheKey);
    }
  }

  /**
   * Clearing removes exactly the expired cache entries: every key outside the cache, every
   * entry saved at most `maxAgeMs` ago, and every empty or timestamp-less entry keeps its value,
   * and clearing again removes nothing more.
   */
  lemma ClearedKeeps(items: map<string, Entry>, now: int, maxAgeMs: int, key: string)
    requires key in items
    ensures key in Cleared(items, now, maxAgeMs) <==> !Expired(key, items[key], now, maxAgeMs)
    ensures !StartsWith(key, KeyPrefix) ==> key in Cleared(items, now, maxAgeMs) && Cleared(items, now, maxAgeMs)[key] == items[key]
    ensures items[key].Event? && now - items[key].timestamp <= maxAgeMs ==> Cleared(items, now, maxAgeMs)[key] == items[key]
    ensures items[key].NoTime? || items[key].Blank? ==> key in Cleared(items, now, maxAgeMs) && Cleared(items, now, maxAgeMs)[key] == items[key]
    ensures Cleared(Cleared(items, now, maxAgeMs), now, maxAgeMs) == Cleared(items, now, maxAgeMs)
  {
  }

  /**
   * After a clear, a cache key loads what it loaded before unless its entry expired, and a
   * stored event at most `maxAgeMs` old still loads.
   */
  lemma LoadAfterClear(items: map<string, Entry>, cacheKey: string, now: int, maxAgeMs: int)
    ensures var key := StorageKey(cacheKey);
      LoadFrom(Cleared(items, now, maxAgeMs), cacheKey)
      == if key in items && Expired(key, items[key], now, maxAgeMs) then None else LoadFrom(items, cacheKey)
    ensures var key := StorageKey(cacheKey);
      key in items && items[key].Event? && now - items[key].timestamp <= maxAgeMs ==>
      LoadFrom(Cleared(items, now, maxAgeMs), cacheKey) == LoadFrom(items, cacheKey)
  {
  }

  /** The browser's `localStorage`, as far as the cache uses it. */
  class LocalStorage {
    var items: map<string, Entry>
    /** False when the browser refuses access to storage: every call on it throws. */
    var available: bool

    constructor(items: map<string, Entry>, available: bool)
      ensures this.items == items && this.available == available
    {
      this.items := items;
      this.available := available;
    }

    /**
     * `saveEventName(cacheKey, eventName)` at time `now`: the name and the time are stored under
     * the prefixed key. `fits` is whether `setItem` accepts the text; when it throws, or storage
     * is unavailable, the warning is logged and the store is left as it was.
     */
    method SaveEventName(cacheKey: string, eventName: string, now: int, fits: bool)
      modifies this
      ensures available == old(available)
      ensures items == if available && fits then old(items)[StorageKey(cacheKey) := Event(eventName, now)] else old(items)
    {
      if !available || !fits {
        return;
      }
      var cached := Event(eventName, now);
      items := items[StorageKey(cacheKey) := cached];
    }

    /** `loadEventName(cacheKey)`: `null` whenever storage or `JSON.parse` throws. */
    method LoadEventName(cacheKey: string) returns (r: Option<string>)
      ensures r == if available then LoadFrom(items, cacheKey) else None
      ensures var key := StorageKey(cacheKey);
        r.Some? ==> (r.value != "" && key in items && Named(items[key]) && items[key].eventName == r.value)
      ensures var key := StorageKey(cacheKey);
        (available && key in items && Named(items[key]) && items[key].eventName != "") ==> r == Some(items[key].eventName)
    {
      if !available {
        return None;
      }
      var key := StorageKey(cacheKey);
      if key !in items || items[key].Blank? {
        return None;
      }
      match items[key]
      case Unparsable =>
        r := None;
      case Event(eventName, _) =>
        r := if eventName != "" then Some(eventName) else None;
      case NoTime(eventName) =>
        r := if eventName != "" then Some(eventName) else None;
    }

    /**
     * `clearOldCache(maxAgeMs)` at time `now`: the keys to remove are collected first, over every
     * stored key, and removed afterwards. Unavailable storage leaves everything as it was.
     */
    method ClearOldCache(now: int, maxAgeMs: int)
      modifies this
      ensures available == old(available)
      ensures items == if available then Cleared(old(items), now, maxAgeMs) else old(items)
    {
      if !available {
        return;
      }
      var keysToRemove := CollectExpired(now, maxAgeMs);
      ghost var items0 := items;
      var j := 0;
      while j < |keysToRemove|
        invariant j <= |keysToRemove| && available
        invariant items.Keys == items0.Keys - set k | k in keysToRemove[..j]
        invariant forall k :: k in items ==> items[k] == items0[k]
      {
        items := items - {keysToRemove[j]};
        assert keysToRemove[..j + 1] == keysToRemove[..j] + [keysToRemove[j]];
        j := j + 1;
      }
      assert keysToRemove[..j] == keysToRemove;
      assert items.Keys == Cleared(items0, now, maxAgeMs).Keys;
    }

    /** `clearOldCache()` with its default age limit of 30 days. */
    method ClearOldCacheDefault(now: int)
      modifies this
      ensures available == old(available)
      ensures items == if available then Cleared(old(items), now, DefaultMaxAge) else old(items)
    {
      ClearOldCache(now, DefaultMaxAge);
    }

    /** The collecting loop of `clearOldCache`: every stored key, in some order, is looked at once. */
    method CollectExpired(now: int, maxAgeMs: int) returns (keysToRemove: seq<string>)
      ensures forall k :: k in keysToRemove <==> k in items && Expired(k, items[k], now, maxAgeMs)
    {
      keysToRemove := [];
      var pending := items.Keys;
      while pending != {}
        invariant pending <= items.Keys
        invariant forall k :: k in keysToRemove <==> k in items && k !in pending && Expired(k, items[k], now, maxAgeMs)
        decreases |pending|
      {
        var key :| key in pending;
        if StartsWith(key, KeyPrefix) {
          match items[key]
          case Blank =>
          case NoTime(_) =>
          case Unparsable =>
            keysToRemove := keysToRemove + [key];
          case Event(_, timestamp) =>
            if now - timestamp > maxAgeMs {
              keysToRemove := keysToRemove + [key];
            }
        }
        pending := pending - {key};
      }
    }
  }
}
