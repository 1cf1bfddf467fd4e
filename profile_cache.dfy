/** An in-memory cache of profile data, keyed by user id. An entry is
    served while its age is at most five minutes; a lookup that finds an
    older entry deletes it. The clock is a parameter: `now` is the current
    time in milliseconds. */
module ProfileCache {
  import opened Common

  datatype ProfileData = ProfileData(displayName: Option<string>, venmoHandle: Option<string>)

  datatype CacheEntry = CacheEntry(data: ProfileData, timestamp: int)

  /** Five minutes, in milliseconds. */
  const CacheTtl: int := 5 * 60 * 1000

  predicate Expired(e: CacheEntry, now: int)
  {
    now - e.timestamp > CacheTtl
  }

  /** What a lookup of `userId` at time `now` returns. */
  function Fresh(entries: map<string, CacheEntry>, userId: string, now: int): (r: Option<ProfileData>)
    ensures userId !in entries ==> r.None?
    ensures userId in entries && now - entries[userId].timestamp > 300000 ==> r.None?
    ensures userId in entries && now - entries[userId].timestamp <= 300000 ==> r == Some(entries[userId].data)
  {
    if userId !in entries || Expired(entries[userId], now) then None else Some(entries[userId].data)
  }

  /** A profile stored at time t is served until t + TTL inclusive, and not after. */
  lemma SetThenGet(entries: map<string, CacheEntry>, userId: string, data: ProfileData, t: int, now: int)
    ensures now - t <= CacheTtl ==> Fresh(entries[userId := CacheEntry(data, t)], userId, now) == Some(data)
    ensures now - t > CacheTtl ==> Fresh(entries[userId := CacheEntry(data, t)], userId, now).None?
  {
  }

  /** Storing a profile for one user changes no other user's lookup. */
  lemma SetKeepsOthers(entries: map<string, CacheEntry>, userId: string, data: ProfileData, t: int, other: string, now: int)
    requires other != userId
    ensures Fresh(entries[userId := CacheEntry(data, t)], other, now) == Fresh(entries, other, now)
  {
  }

  /** Deleting an expired entry changes no lookup: it was not served anyway, and the others stay. */
  lemma ExpiryInvisible(entries: map<string, CacheEntry>, userId: string, now: int, other: string)
    requires userId in entries && Expired(entries[userId], now)
    ensures Fresh(entries - {userId}, other, now) == Fresh(entries, other, now)
  {
  }

  class Cache {
    var entries: map<string, CacheEntry>

    constructor ()
      ensures entries == map[]
    {
      entries := map[];
    }

    /** `getCachedProfile` */
    method Get(userId: string, now: int) returns (r: Option<ProfileData>)
      modifies this
      ensures r == Fresh(old(entries), userId, now)
      ensures userId in old(entries) && Expired(old(entries)[userId], now) ==> entries == old(entries) - {userId}
      ensures !(userId in old(entries) && Expired(old(entries)[userId], now)) ==> entries == old(entries)
    {
      if userId !in entries {
        return None;
      }
      var entry := entries[userId];
      if now - entry.timestamp > CacheTtl {
        entries := entries - {userId};
        return None;
      }
      return Some(entry.data);
    }

    /** `setCachedProfile`: stores the profile with the current time, replacing any entry. */
    method Set(userId: string, profile: ProfileData, now: int)
      modifies this
      ensures entries == old(entries)[userId := CacheEntry(profile, now)]
    {
      entries := entries[userId := CacheEntry(profile, now)];
    }

    /** `clearProfileCache`: afterwards every lookup misses. */
    method Clear()
      modifies this
      ensures entries == map[]
      ensures forall userId, now :: Fresh(entries, userId, now).None?
    {
      entries := map[];
    }
  }
}
