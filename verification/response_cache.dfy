/**
 The response cache of pkg/proxy/cache.go: TTL-bounded entries aged on read, a serve-stale
 window (section 4 of RFC 8767), an expiry purge and evict-oldest at capacity.

 The value `Cache` with Get, GetStale and Stored specifies the class ResponseCache. Times are
 nanoseconds. `outOfRange` stands for whatever the platform yields when a number of elapsed
 seconds does not fit the uint32 it is converted to.
 */
module ResponseCaches {
  import opened Wrappers
  import opened Messages

  const SECOND := 1_000_000_000
  const DEFAULT_STALE_TTL := 300 * SECOND

  datatype Cached = Cached(message: Msg, storedAt: int, expiresAt: int)

  datatype Cache = Cache(entries: map<string, Cached>, maxEntries: int, defaultTTL: int, staleTTL: int)

  // ---------------------------------------------------------------- TTL arithmetic

  /** The least nonzero TTL, or 0 when there is none. */
  function LeastNonzero(rs: seq<RR>): Word {
    if rs == [] then 0 else
      var rest, ttl := LeastNonzero(rs[..|rs| - 1]), rs[|rs| - 1].ttl;
      if ttl != 0 && (rest == 0 || ttl < rest) then ttl else rest
  }

  lemma {:induction false} LeastNonzeroIsLeast(rs: seq<RR>)
    ensures forall r :: r in rs && r.ttl != 0 ==> 0 < LeastNonzero(rs) <= r.ttl
    ensures LeastNonzero(rs) != 0 ==> exists r :: r in rs && r.ttl == LeastNonzero(rs)
  {
    if rs != [] {
      var rest, last := rs[..|rs| - 1], rs[|rs| - 1];
      LeastNonzeroIsLeast(rest);
      assert forall r :: r in rs <==> r in rest || r == last;
    }
  }

  function EntryTTL(response: Msg, fallback: int): int {
    var least := LeastNonzero(Records(response));
    if least > 0 then least * SECOND else fallback
  }

  predicate IsCacheable(response: Option<Msg>) {
    response.Some? && response.value.rcode == RCODE_SUCCESS && !response.value.truncated
  }

  /** uint32(now.Sub(storedAt).Seconds()): the conversion truncates towards zero. */
  function ElapsedSeconds(storedAt: int, now: int, outOfRange: Word): Word {
    var elapsed := now - storedAt;
    if -SECOND < elapsed < 0 then 0
    else if 0 <= elapsed < 0x1_0000_0000 * SECOND then elapsed / SECOND
    else outOfRange
  }

  function AgedTTL(ttl: Word, elapsed: Word): Word {
    if elapsed >= ttl then 0 else ttl - elapsed
  }

  function AgedRecords(rs: seq<RR>, elapsed: Word): seq<RR> {
    seq(|rs|, i requires 0 <= i < |rs| => rs[i].(ttl := AgedTTL(rs[i].ttl, elapsed)))
  }

  function WithTTL(rs: seq<RR>, ttl: Word): seq<RR> {
    seq(|rs|, i requires 0 <= i < |rs| => rs[i].(ttl := ttl))
  }

  function WithId(m: Msg, request: Option<Msg>): Msg {
    if request.Some? then m.(id := request.value.id) else m
  }

  function Aged(e: Cached, request: Option<Msg>, now: int, outOfRange: Word): Msg {
    var m := WithId(e.message, request);
    var elapsed := ElapsedSeconds(e.storedAt, now, outOfRange);
    m.(answer := AgedRecords(m.answer, elapsed), ns := AgedRecords(m.ns, elapsed),
       extra := AgedRecords(m.extra, elapsed))
  }

  function Stale(e: Cached, request: Option<Msg>): Msg {
    var m := WithId(e.message, request);
    m.(answer := WithTTL(m.answer, 1), ns := WithTTL(m.ns, 1), extra := WithTTL(m.extra, 1))
  }

  // ---------------------------------------------------------------- operations on values

  function Find(entries: map<string, Cached>, request: Option<Msg>): Option<Cached> {
    var key := CacheKey(request);
    if key.Some? && key.value in entries then Some(entries[key.value]) else None
  }

  function Get(c: Cache, request: Option<Msg>, now: int, outOfRange: Word): Option<Msg> {
    match Find(c.entries, request)
    case None => None
    case Some(e) => if e.expiresAt > now then Some(Aged(e, request, now, outOfRange)) else None
  }

  function GetStale(c: Cache, request: Option<Msg>, now: int, outOfRange: Word): Option<Msg> {
    match Find(c.entries, request)
    case None => None
    case Some(e) =>
      if e.expiresAt > now then Some(Aged(e, request, now, outOfRange))
      else if now - e.expiresAt > c.staleTTL then None
      else Some(Stale(e, request))
  }

  function Purged(c: Cache, now: int): map<string, Cached> {
    map k | k in c.entries && !(now - c.entries[k].expiresAt > c.staleTTL) :: c.entries[k]
  }

  /** A victim the eviction scan may choose: any key of minimal expiry. */
  ghost predicate IsOldest(entries: map<string, Cached>, victim: string) {
    victim in entries && forall k :: k in entries ==> entries[victim].expiresAt <= entries[k].expiresAt
  }

  predicate Stores(c: Cache, request: Option<Msg>, response: Option<Msg>) {
    CacheKey(request).Some? && IsCacheable(response) && EntryTTL(response.value, c.defaultTTL) > 0
  }

  predicate Evicts(c: Cache, now: int) {
    |Purged(c, now)| >= c.maxEntries
  }

  /** When a full cache stores, the scan's choice is the oldest of what the purge left. */
  ghost predicate LegalVictim(c: Cache, request: Option<Msg>, response: Option<Msg>, now: int, victim: string) {
    Stores(c, request, response) && Evicts(c, now) && Purged(c, now) != map[] ==> IsOldest(Purged(c, now), victim)
  }

  function NewEntry(c: Cache, response: Msg, now: int): Cached {
    Cached(response, now, now + EntryTTL(response, c.defaultTTL))
  }

  /** Store, given the key the eviction scan would choose. */
  function Stored(c: Cache, request: Option<Msg>, response: Option<Msg>, now: int, victim: string): Cache {
    if !Stores(c, request, response) then c else
      var purged := Purged(c, now);
      var room := if Evicts(c, now) then purged - {victim} else purged;
      c.(entries := room[CacheKey(request).value := NewEntry(c, response.value, now)])
  }

  // ---------------------------------------------------------------- the cache object

  method MinResponseTTL(response: Option<Msg>) returns (ttl: int)
    ensures ttl == if response.None? then 0 else LeastNonzero(Records(response.value)) * SECOND
  {
    if response.None? {
      return 0;
    }
    var m := response.value;
    var sections := [m.answer, m.ns, m.extra];
    ghost var done: seq<RR> := [];
    var minTTL: Word := 0;
    for s := 0 to 3
      invariant done == [[], m.answer, m.answer + m.ns, Records(m)][s]
      invariant minTTL == LeastNonzero(done)
    {
      minTTL := ScanSection(sections[s], done, minTTL);
      done := done + sections[s];
    }
    return minTTL * SECOND;
  }

  /** The inner loop; `seen` is minTTL != 0, as a zero TTL is never taken. */
  method ScanSection(records: seq<RR>, ghost before: seq<RR>, least: Word) returns (minTTL: Word)
    requires least == LeastNonzero(before)
    ensures minTTL == LeastNonzero(before + records)
  {
    minTTL := least;
    var seen := least != 0;
    assert before + records[..0] == before;
    for i := 0 to |records|
      invariant minTTL == LeastNonzero(before + records[..i]) && (seen <==> minTTL != 0)
    {
      var ttl := records[i].ttl;
      LeastOfOneMore(before + records[..i], records[i]);
      assert before + records[..i + 1] == before + records[..i] + [records[i]];
      if ttl != 0 && (!seen || ttl < minTTL) {
        minTTL := ttl;
        seen := true;
      }
    }
    assert records[..|records|] == records;
  }

  lemma LeastOfOneMore(rs: seq<RR>, r: RR)
    ensures var rest := LeastNonzero(rs);
            LeastNonzero(rs + [r]) == if r.ttl != 0 && (rest == 0 || r.ttl < rest) then r.ttl else rest
  {
  }

  method CacheEntryTTL(response: Msg, fallback: int) returns (ttl: int)
    ensures ttl == EntryTTL(response, fallback)
  {
    ttl := MinResponseTTL(Some(response));
    if ttl <= 0 {
      ttl := fallback;
    }
  }

  /** The copy's records are aged in place. */
  method AgeSection(records: seq<RR>, elapsed: Word) returns (aged: seq<RR>)
    ensures aged == AgedRecords(records, elapsed)
  {
    aged := records;
    for i := 0 to |records|
      invariant |aged| == |records|
      invariant forall j :: 0 <= j < i ==> aged[j] == AgedRecords(records, elapsed)[j]
      invariant forall j :: i <= j < |records| ==> aged[j] == records[j]
    {
      if aged[i].ttl != 0 {
        if elapsed >= aged[i].ttl {
          aged := aged[i := aged[i].(ttl := 0)];
        } else {
          aged := aged[i := aged[i].(ttl := aged[i].ttl - elapsed)];
        }
      }
    }
  }

  method ShortenSection(records: seq<RR>) returns (short: seq<RR>)
    ensures short == WithTTL(records, 1)
  {
    short := records;
    for i := 0 to |records|
      invariant |short| == |records|
      invariant forall j :: 0 <= j < i ==> short[j] == WithTTL(records, 1)[j]
      invariant forall j :: i <= j < |records| ==> short[j] == records[j]
    {
      short := short[i := short[i].(ttl := 1)];
    }
  }

  method CloneCachedResponse(entry: Cached, request: Option<Msg>, now: int, outOfRange: Word) returns (response: Msg)
    ensures response == Aged(entry, request, now, outOfRange)
  {
    response := WithId(entry.message, request);
    var elapsed := ElapsedSeconds(entry.storedAt, now, outOfRange);
    if elapsed == 0 {
      AgedByNothing(response.answer);
      AgedByNothing(response.ns);
      AgedByNothing(response.extra);
      return;
    }
    var answer := AgeSection(response.answer, elapsed);
    var ns := AgeSection(response.ns, elapsed);
    var extra := AgeSection(response.extra, elapsed);
    response := response.(answer := answer, ns := ns, extra := extra);
  }

  lemma AgedByNothing(rs: seq<RR>)
    ensures AgedRecords(rs, 0) == rs
  {
  }

  class ResponseCache {
    var entries: map<string, Cached>
    const maxEntries: int
    const defaultTTL: int
    const staleTTL: int

    ghost function View(): Cache
      reads this
    {
      Cache(entries, maxEntries, defaultTTL, staleTTL)
    }

    /** No key is empty, so "" can stand for "no key chosen yet" in the eviction scan. */
    ghost predicate Valid()
      reads this
    {
      "" !in entries
    }

    constructor (maxEntries: int, defaultTTL: int)
      ensures Valid()
      ensures View() == Cache(map[], maxEntries, if defaultTTL <= 0 then 30_000_000_000 else defaultTTL,
                              300_000_000_000)
    {
      entries := map[];
      this.maxEntries := maxEntries;
      this.defaultTTL := if defaultTTL <= 0 then 30 * SECOND else defaultTTL;
      staleTTL := DEFAULT_STALE_TTL;
    }

    method Lookup(request: Option<Msg>, now: int, outOfRange: Word) returns (response: Option<Msg>)
      ensures response == Get(View(), request, now, outOfRange)
    {
      var key := CacheKey(request);
      if key.None? || key.value !in entries {
        return None;
      }
      var entry := entries[key.value];
      if !(entry.expiresAt > now) {
        return None;
      }
      var clone := CloneCachedResponse(entry, request, now, outOfRange);
      return Some(clone);
    }

    method LookupStale(request: Option<Msg>, now: int, outOfRange: Word) returns (response: Option<Msg>)
      ensures response == GetStale(View(), request, now, outOfRange)
    {
      var key := CacheKey(request);
      if key.None? || key.value !in entries {
        return None;
      }
      var entry := entries[key.value];
      if entry.expiresAt > now {
        var clone := CloneCachedResponse(entry, request, now, outOfRange);
        return Some(clone);
      }
      if now - entry.expiresAt > staleTTL {
        return None;
      }
      var stale := WithId(entry.message, request);
      var answer := ShortenSection(stale.answer);
      var ns := ShortenSection(stale.ns);
      var extra := ShortenSection(stale.extra);
      return Some(stale.(answer := answer, ns := ns, extra := extra));
    }

    method Store(request: Option<Msg>, response: Option<Msg>, now: int) returns (ghost victim: string)
      requires Valid()
      modifies this
      ensures Valid()
      ensures View() == Stored(old(View()), request, response, now, victim)
      ensures LegalVictim(old(View()), request, response, now, victim)
    {
      victim := "";
      var key := CacheKey(request);
      if key.None? || !IsCacheable(response) {
        return;
      }
      var ttl := CacheEntryTTL(response.value, defaultTTL);
      if ttl <= 0 {
        return;
      }
      var entry := Cached(response.value, now, now + ttl);
      EvictExpired(now);
      if |entries| >= maxEntries {
        victim := EvictOldest();
      }
      KeysAreNotEmpty(request);
      entries := entries[key.value := entry];
    }

    lemma KeysAreNotEmpty(request: Option<Msg>)
      ensures CacheKey(request) != Some("")
    {
    }

    /** Ranges over the map in an arbitrary order, deleting as it goes. */
    method EvictExpired(now: int)
      requires Valid()
      modifies this
      ensures Valid() && entries == Purged(old(View()), now)
    {
      ghost var was := entries;
      var pending := entries.Keys;
      while pending != {}
        invariant pending <= was.Keys && "" !in entries
        invariant forall k :: k in entries <==> k in was && (k in pending || !(now - was[k].expiresAt > staleTTL))
        invariant forall k :: k in entries ==> entries[k] == was[k]
        decreases |pending|
      {
        var key :| key in pending;
        pending := pending - {key};
        if now - entries[key].expiresAt > staleTTL {
          entries := entries - {key};
        }
      }
    }

    /** For every iteration order: exactly one entry goes, of minimal expiry. */
    method EvictOldest() returns (ghost victim: string)
      requires Valid()
      modifies this
      ensures Valid() && entries == old(entries) - {victim}
      ensures old(entries) != map[] ==> IsOldest(old(entries), victim)
    {
      var oldestKey := "";
      var oldestTime := 0;
      var pending := entries.Keys;
      while pending != {}
        invariant pending <= entries.Keys && entries == old(entries)
        invariant oldestKey == "" ==> pending == entries.Keys
        invariant oldestKey != "" ==>
                    && oldestKey in entries && oldestTime == entries[oldestKey].expiresAt
                    && forall k :: k in entries && k !in pending ==> oldestTime <= entries[k].expiresAt
        decreases |pending|
      {
        var key :| key in pending;
        pending := pending - {key};
        if oldestKey == "" || entries[key].expiresAt < oldestTime {
          oldestKey := key;
          oldestTime := entries[key].expiresAt;
        }
      }
      victim := oldestKey;
      if oldestKey != "" {
        entries := entries - {oldestKey};
      } else {
        assert entries.Keys == {};
      }
    }
  }
}
