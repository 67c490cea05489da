/** `OBOTokenCache`: exchanged tokens in a bounded, least-recently-used, per-caller cache. */
module OboCache {
  import opened JsonValues

  const EXPIRY_MARGIN_SECONDS: real := 30.0
  const MIN_TOKEN_LIFETIME_SECONDS: int := 30
  const DEFAULT_EXPIRES_IN: int := 300

  /** A cached token answers only a call that agrees with it on all of these. */
  datatype CacheKey = CacheKey(subject: string, issuer: string, serverId: string, audience: string,
                               scope: string, resource: string, flow: string)

  datatype Entry = Entry(token: string, expiresAt: real)

  /** Oldest use first. */
  type Entries = seq<(CacheKey, Entry)>

  // ------------------------------------------------------------ one ordered dictionary

  function Find(entries: Entries, key: CacheKey): (r: Option<Entry>)
    ensures r.Some? <==> exists i :: 0 <= i < |entries| && entries[i].0 == key
    ensures r.Some? ==> (key, r.value) in entries
  {
    if |entries| == 0 then None
    else if entries[0].0 == key then Some(entries[0].1)
    else
      var r := Find(entries[1..], key);
      assert forall i :: 1 <= i < |entries| ==> entries[i] == entries[1..][i - 1];
      assert r.Some? ==> (key, r.value) in entries[1..];
      r
  }

  function Remove(entries: Entries, key: CacheKey): (r: Entries)
    ensures forall e :: e in r <==> e in entries && e.0 != key
    ensures |r| <= |entries|
  {
    if |entries| == 0 then []
    else
      assert entries == [entries[0]] + entries[1..];
      (if entries[0].0 == key then [] else [entries[0]]) + Remove(entries[1..], key)
  }

  /** `entries[key] = entry` followed by `move_to_end(key)`. */
  function PutLast(entries: Entries, key: CacheKey, entry: Entry): Entries {
    Remove(entries, key) + [(key, entry)]
  }

  function Newest(entries: Entries, max: nat): (r: Entries)
    ensures |r| <= max
    ensures r == if |entries| <= max then entries else entries[|entries| - max..]
  {
    if |entries| > max then Newest(entries[1..], max) else entries
  }

  ghost predicate DistinctKeys(entries: Entries) {
    forall i, j :: 0 <= i < j < |entries| ==> entries[i].0 != entries[j].0
  }

  // ------------------------------------------------------------ lifetimes

  /** `_coerce_expires_in`; no number stands for anything `int()` refuses. */
  function CoerceExpiresIn(value: Option<int>): int {
    match value
    case None => DEFAULT_EXPIRES_IN
    case Some(seconds) => if seconds < MIN_TOKEN_LIFETIME_SECONDS then MIN_TOKEN_LIFETIME_SECONDS else seconds
  }

  function ExpiryFor(now: real, expiresIn: int, subjectExpiresAt: Option<real>): (r: real)
    ensures subjectExpiresAt.Some? ==> r <= subjectExpiresAt.value
    ensures r <= now + expiresIn as real
  {
    var own := now + expiresIn as real;
    if subjectExpiresAt.Some? && subjectExpiresAt.value < own then subjectExpiresAt.value else own
  }

  predicate IsLive(entry: Entry, now: real) {
    entry.expiresAt - now > EXPIRY_MARGIN_SECONDS
  }

  /** A token stored within 30 seconds of being issued is never served past its true expiry,
      whatever lifetime the issuer named: below the floor it is never served at all. */
  lemma ServedBeforeExpiry(issued: real, stored: real, now: real, seconds: int, subject: Option<real>, token: string)
    requires stored <= now && stored - issued <= EXPIRY_MARGIN_SECONDS
    requires IsLive(Entry(token, ExpiryFor(stored, CoerceExpiresIn(Some(seconds)), subject)), now)
    ensures now < issued + seconds as real
    ensures seconds >= MIN_TOKEN_LIFETIME_SECONDS
  {
  }

  /** With a longer delay it can be: the bound of 30 seconds is exact. */
  lemma LateStoreOutlives(issued: real, stored: real, seconds: int, token: string)
    requires stored - issued > EXPIRY_MARGIN_SECONDS && seconds as real >= stored - issued
    ensures var now := issued + seconds as real;
            now >= stored && IsLive(Entry(token, ExpiryFor(stored, CoerceExpiresIn(Some(seconds)), None)), now)
  {
    assert seconds as real > 30.0;
  }

  // ------------------------------------------------------------ lock sections

  /** The first lock section of `token`: a live entry is used, a dead one dropped. */
  function Looked(entries: Entries, key: CacheKey, now: real): (Entries, Option<Entry>) {
    match Find(entries, key)
    case None => (entries, None)
    case Some(entry) =>
      if IsLive(entry, now) then (PutLast(entries, key, entry), Some(entry))
      else (Remove(entries, key), None)
  }

  /** The second: the fetched token becomes the newest entry, and the oldest make room. */
  function Stored(entries: Entries, key: CacheKey, entry: Entry, max: nat): Entries {
    Newest(PutLast(entries, key, entry), max)
  }

  /** An entry answers exactly while it has more than 30 seconds left. Answering makes it the
      newest; too old, it alone is dropped. */
  lemma LookedReads(entries: Entries, key: CacheKey, now: real)
    requires DistinctKeys(entries)
    ensures var (after, hit) := Looked(entries, key, now);
            && (forall e :: hit == Some(e) <==> (key, e) in entries && e.expiresAt > now + 30.0)
            && (forall x :: x in after <==> x in entries && (x.0 == key ==> x.1.expiresAt > now + 30.0))
            && (hit.Some? ==> |after| > 0 && after[|after| - 1] == (key, hit.value))
  {
    hide Find, Remove;
    var found := Find(entries, key);
    if found.Some? {
      forall e | (key, e) in entries
        ensures e == found.value
      {
        var i :| 0 <= i < |entries| && entries[i] == (key, e);
        var j :| 0 <= j < |entries| && entries[j] == (key, found.value);
      }
    }
  }

  /** A stored token is the newest, alone under its key, and nothing else goes while there is room. */
  lemma StoredReads(entries: Entries, key: CacheKey, entry: Entry, max: nat)
    ensures var after := Stored(entries, key, entry, max);
            && (max > 0 ==> |after| > 0 && after[|after| - 1] == (key, entry))
            && (forall x :: x in after ==> x == (key, entry) || (x in entries && x.0 != key))
            && (|entries| < max ==> forall x :: x in entries && x.0 != key ==> x in after)
  {
    hide Remove;
  }

  /** What a token's lifetime is: 300 seconds unless the issuer names one, at least 30 if it does,
      cut to the end of the session. */
  lemma Lifetimes(now: real, seconds: int, session: real)
    ensures CoerceExpiresIn(None) == 300
    ensures CoerceExpiresIn(Some(seconds)) >= 30 && (seconds >= 30 ==> CoerceExpiresIn(Some(seconds)) == seconds)
    ensures ExpiryFor(now, seconds, None) == now + seconds as real
    ensures var end := ExpiryFor(now, seconds, Some(session));
            end <= session && end <= now + seconds as real && (end == session || end == now + seconds as real)
  {
    assert ExpiryFor(now, seconds, Some(session)) <= session;
  }

  class OBOTokenCache {
    var entries: Entries
    const maxEntries: nat

    ghost predicate Valid()
      reads this
    {
      DistinctKeys(entries) && |entries| <= maxEntries
    }

    constructor (maxEntries: nat)
      ensures Valid() && entries == [] && this.maxEntries == maxEntries
    {
      this.maxEntries := maxEntries;
      entries := [];
    }

    method Lookup(key: CacheKey, now: real) returns (token: Option<string>)
      requires Valid()
      modifies this
      ensures Valid() && entries == Looked(old(entries), key, now).0
      ensures token == match Looked(old(entries), key, now).1 case Some(entry) => Some(entry.token) case None => None
    {
      LookedKeeps(entries, key, now, maxEntries);
      var entry := Find(entries, key);
      if entry.Some? && IsLive(entry.value, now) {
        entries := PutLast(entries, key, entry.value);
        return Some(entry.value.token);
      }
      if entry.Some? {
        entries := Remove(entries, key);
      }
      token := None;
    }

    method Store(key: CacheKey, entry: Entry)
      requires Valid()
      modifies this
      ensures Valid() && entries == Stored(old(entries), key, entry, maxEntries)
    {
      StoredKeeps(entries, key, entry, maxEntries);
      entries := PutLast(entries, key, entry);
      EvictIfNeeded();
    }

    method EvictIfNeeded()
      modifies this
      ensures entries == Newest(old(entries), maxEntries)
    {
      while |entries| > maxEntries
        invariant Newest(entries, maxEntries) == Newest(old(entries), maxEntries)
      {
        entries := entries[1..];
      }
    }

    method Invalidate(key: CacheKey)
      requires Valid()
      modifies this
      ensures Valid() && entries == Remove(old(entries), key)
    {
      RemoveKeeps(entries, key);
      entries := Remove(entries, key);
    }
  }

  lemma {:induction false} RemoveKeeps(entries: Entries, key: CacheKey)
    requires DistinctKeys(entries)
    ensures DistinctKeys(Remove(entries, key))
    ensures (exists i :: 0 <= i < |entries| && entries[i].0 == key) ==> |Remove(entries, key)| < |entries|
    decreases |entries|
  {
    if |entries| > 0 {
      var rest := entries[1..];
      RemoveKeeps(rest, key);
      var kept := Remove(rest, key);
      forall j | 0 <= j < |kept|
        ensures kept[j].0 != entries[0].0
      {
        assert kept[j] in kept && kept[j] in rest;
        var k :| 0 <= k < |rest| && rest[k] == kept[j];
        assert entries[k + 1] == rest[k];
      }
      if i :| 0 <= i < |entries| && entries[i].0 == key {
        if i > 0 { assert rest[i - 1].0 == key; }
      }
    }
  }

  lemma PutLastKeeps(entries: Entries, key: CacheKey, entry: Entry)
    requires DistinctKeys(entries)
    ensures DistinctKeys(PutLast(entries, key, entry))
    ensures forall e :: e in PutLast(entries, key, entry) <==> e == (key, entry) || (e in entries && e.0 != key)
  {
    RemoveKeeps(entries, key);
    var kept := Remove(entries, key);
    assert forall i :: 0 <= i < |kept| ==> kept[i] in kept;
  }

  lemma LookedKeeps(entries: Entries, key: CacheKey, now: real, max: nat)
    requires DistinctKeys(entries) && |entries| <= max
    ensures DistinctKeys(Looked(entries, key, now).0) && |Looked(entries, key, now).0| <= max
    ensures forall e :: e in Looked(entries, key, now).0 ==> e in entries
    ensures var hit := Looked(entries, key, now).1;
            hit.Some? ==> (key, hit.value) in entries && IsLive(hit.value, now)
  {
    hide Remove, Find, PutLast;
    RemoveKeeps(entries, key);
    if Find(entries, key).Some? {
      var entry := Find(entries, key).value;
      PutLastKeeps(entries, key, entry);
      PutLastLength(entries, key, entry);
    }
  }

  lemma PutLastLength(entries: Entries, key: CacheKey, entry: Entry)
    requires DistinctKeys(entries)
    ensures (exists i :: 0 <= i < |entries| && entries[i].0 == key) ==> |PutLast(entries, key, entry)| <= |entries|
  {
    hide Remove;
    RemoveKeeps(entries, key);
  }

  lemma StoredKeeps(entries: Entries, key: CacheKey, entry: Entry, max: nat)
    requires DistinctKeys(entries)
    ensures DistinctKeys(Stored(entries, key, entry, max)) && |Stored(entries, key, entry, max)| <= max
    ensures forall e :: e in Stored(entries, key, entry, max) ==> e == (key, entry) || e in entries
  {
    hide Remove, PutLast;
    PutLastKeeps(entries, key, entry);
  }
}
