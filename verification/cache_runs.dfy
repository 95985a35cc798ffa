/**
 Whole runs of the response cache. Reads change nothing, so a run is a sequence of stores, each
 with the victim its eviction scan would choose; every read statement is for any time at which
 a read may come in between.
 */
module CacheRuns {
  import opened Wrappers
  import opened Sets
  import opened Texts
  import opened Messages
  import opened ResponseCaches

  datatype StoreCall = StoreCall(request: Option<Msg>, response: Option<Msg>, at: int, victim: string)

  function Step(c: Cache, s: StoreCall): Cache {
    Stored(c, s.request, s.response, s.at, s.victim)
  }

  function Run(c: Cache, calls: seq<StoreCall>): Cache {
    if calls == [] then c else Step(Run(c, calls[..|calls| - 1]), calls[|calls| - 1])
  }

  ghost predicate Legal(c: Cache, s: StoreCall) {
    LegalVictim(c, s.request, s.response, s.at, s.victim)
  }

  ghost predicate LegalVictims(c: Cache, calls: seq<StoreCall>) {
    forall i :: 0 <= i < |calls| ==> Legal(Run(c, calls[..i]), calls[i])
  }

  // ---------------------------------------------------------------- the unbounded cache

  /** A cache that never drops anything: each key maps to its last cacheable write. */
  function Unbounded(c: Cache, calls: seq<StoreCall>): Cache {
    if calls == [] then c else UnboundedStep(Unbounded(c, calls[..|calls| - 1]), calls[|calls| - 1])
  }

  function UnboundedStep(u: Cache, s: StoreCall): Cache {
    if Stores(u, s.request, s.response)
    then u.(entries := u.entries[CacheKey(s.request).value := NewEntry(u, s.response.value, s.at)])
    else u
  }

  ghost predicate SameSettings(c: Cache, c': Cache) {
    c'.maxEntries == c.maxEntries && c'.defaultTTL == c.defaultTTL && c'.staleTTL == c.staleTTL
  }

  ghost predicate SubMap(a: map<string, Cached>, b: map<string, Cached>) {
    forall k :: k in a ==> k in b && a[k] == b[k]
  }

  /** Call number i is the last one to write the key. */
  ghost predicate LastWriteAt(c: Cache, calls: seq<StoreCall>, key: string, i: int) {
    && 0 <= i < |calls| && Writes(c, calls[i], key)
    && forall j :: i < j < |calls| ==> !Writes(c, calls[j], key)
  }

  ghost predicate Writes(c: Cache, s: StoreCall, key: string) {
    Stores(c, s.request, s.response) && CacheKey(s.request) == Some(key)
  }

  /** The unbounded cache is the last-cacheable-write map. */
  lemma {:induction false} UnboundedIsLastWrite(c: Cache, calls: seq<StoreCall>, key: string)
    requires c.entries == map[]
    ensures SameSettings(c, Unbounded(c, calls))
    ensures key in Unbounded(c, calls).entries <==> exists i :: LastWriteAt(c, calls, key, i)
    ensures forall i :: LastWriteAt(c, calls, key, i) ==>
              && key in Unbounded(c, calls).entries
              && Unbounded(c, calls).entries[key] == NewEntry(c, calls[i].response.value, calls[i].at)
  {
    if calls != [] {
      var past, s := calls[..|calls| - 1], calls[|calls| - 1];
      UnboundedIsLastWrite(c, past, key);
      LastWriteOfOneMore(c, calls, key);
      hide LastWriteAt;
      assert Writes(c, s, key) ==> LastWriteAt(c, calls, key, |past|);
      assert forall i :: LastWriteAt(c, past, key, i) ==> 0 <= i < |past| by { LastWritesInRange(c, past, key); }
    }
  }

  lemma LastWritesInRange(c: Cache, calls: seq<StoreCall>, key: string)
    ensures forall i :: LastWriteAt(c, calls, key, i) ==> 0 <= i < |calls|
  {
  }

  lemma LastWriteOfOneMore(c: Cache, calls: seq<StoreCall>, key: string)
    requires calls != []
    ensures var past, s := calls[..|calls| - 1], calls[|calls| - 1];
            forall i :: LastWriteAt(c, calls, key, i) <==>
                        if Writes(c, s, key) then i == |past| else LastWriteAt(c, past, key, i)
  {
    hide Writes;
    var past, s := calls[..|calls| - 1], calls[|calls| - 1];
    assert forall j :: 0 <= j < |past| ==> calls[j] == past[j];
    forall i ensures LastWriteAt(c, calls, key, i) <==>
                     if Writes(c, s, key) then i == |past| else LastWriteAt(c, past, key, i) {
      if 0 <= i < |past| && Writes(c, s, key) {
        assert calls[|past|] == s;
      }
    }
  }

  /** For any eviction choices, the entries are a sub-map of the last-write map. */
  lemma {:induction false} EntriesAreSubMap(c: Cache, calls: seq<StoreCall>)
    ensures SameSettings(c, Run(c, calls)) && SameSettings(c, Unbounded(c, calls))
    ensures SubMap(Run(c, calls).entries, Unbounded(c, calls).entries)
  {
    if calls != [] {
      EntriesAreSubMap(c, calls[..|calls| - 1]);
    }
  }

  /** Refinement: every hit, fresh or stale, is what the unbounded cache would return. */
  lemma EveryHitIsAnUnboundedHit(c: Cache, calls: seq<StoreCall>, request: Option<Msg>, now: int, outOfRange: Word)
    ensures var got := Get(Run(c, calls), request, now, outOfRange);
            got.Some? ==> got == Get(Unbounded(c, calls), request, now, outOfRange)
    ensures var got := GetStale(Run(c, calls), request, now, outOfRange);
            got.Some? ==> got == GetStale(Unbounded(c, calls), request, now, outOfRange)
  {
    EntriesAreSubMap(c, calls);
  }

  // ---------------------------------------------------------------- below capacity

  ghost predicate NeverFull(c: Cache, calls: seq<StoreCall>) {
    forall i :: 0 <= i < |calls| ==> !Evicts(Run(c, calls[..i]), calls[i].at)
  }

  ghost predicate Ordered(calls: seq<StoreCall>) {
    forall i, j :: 0 <= i <= j < |calls| ==> calls[i].at <= calls[j].at
  }

  ghost predicate NotBefore(now: int, calls: seq<StoreCall>) {
    forall i :: 0 <= i < |calls| ==> calls[i].at <= now
  }

  /** What the purge dropped is beyond its stale window. */
  ghost predicate OnlyDeadDropped(c: Cache, u: Cache, now: int) {
    forall k :: k in u.entries && k !in c.entries ==> now - u.entries[k].expiresAt > u.staleTTL
  }

  lemma {:induction false} DroppedAreDead(c: Cache, calls: seq<StoreCall>, now: int)
    requires Ordered(calls) && NotBefore(now, calls) && NeverFull(c, calls)
    ensures OnlyDeadDropped(Run(c, calls), Unbounded(c, calls), now)
  {
    if calls != [] {
      var past, s := calls[..|calls| - 1], calls[|calls| - 1];
      assert forall i :: 0 <= i < |past| ==> calls[..i] == past[..i] && calls[i] == past[i];
      assert calls[..|past|] == past;
      DroppedAreDead(c, past, s.at);
      EntriesAreSubMap(c, past);
      StoreDropsOnlyDead(Run(c, past), Unbounded(c, past), s);
    }
  }

  lemma StoreDropsOnlyDead(c: Cache, u: Cache, s: StoreCall)
    requires SameSettings(c, u) && SubMap(c.entries, u.entries)
    requires OnlyDeadDropped(c, u, s.at) && !Evicts(c, s.at)
    ensures OnlyDeadDropped(Step(c, s), UnboundedStep(u, s), s.at)
  {
  }

  /** Below capacity with a forward clock the cache is the unbounded one: the purge is invisible. */
  lemma {:induction false} PurgeIsInvisible(
    c: Cache, calls: seq<StoreCall>, request: Option<Msg>, now: int, outOfRange: Word)
    requires c.staleTTL >= 0
    requires Ordered(calls) && NotBefore(now, calls) && NeverFull(c, calls)
    ensures Get(Run(c, calls), request, now, outOfRange) == Get(Unbounded(c, calls), request, now, outOfRange)
    ensures GetStale(Run(c, calls), request, now, outOfRange) == GetStale(Unbounded(c, calls), request, now, outOfRange)
  {
    DroppedAreDead(c, calls, now);
    EntriesAreSubMap(c, calls);
  }

  /** The keys a run can write. */
  function KeysOf(calls: seq<StoreCall>): set<string> {
    set i | 0 <= i < |calls| && CacheKey(calls[i].request).Some? :: CacheKey(calls[i].request).value
  }

  lemma {:induction false} EntriesAreWrittenKeys(c: Cache, calls: seq<StoreCall>)
    requires c.entries == map[]
    ensures Run(c, calls).entries.Keys <= KeysOf(calls)
  {
    if calls != [] {
      var past, s := calls[..|calls| - 1], calls[|calls| - 1];
      EntriesAreWrittenKeys(c, past);
      KeysOfPrefix(calls, |past|);
      assert CacheKey(s.request).Some? ==> CacheKey(s.request).value in KeysOf(calls);
    }
  }

  lemma KeysOfPrefix(calls: seq<StoreCall>, n: nat)
    requires n <= |calls|
    ensures KeysOf(calls[..n]) <= KeysOf(calls)
  {
  }

  /** A caller can rule eviction out beforehand: fewer distinct keys than the cache may hold. */
  lemma FewKeysNeverFill(c: Cache, calls: seq<StoreCall>)
    requires c.entries == map[] && |KeysOf(calls)| < c.maxEntries
    ensures NeverFull(c, calls)
  {
    forall i | 0 <= i < |calls| ensures !Evicts(Run(c, calls[..i]), calls[i].at) {
      var now := Run(c, calls[..i]);
      EntriesAreWrittenKeys(c, calls[..i]);
      EntriesAreSubMap(c, calls[..i]);
      KeysOfPrefix(calls, i);
      Smaller(Purged(now, calls[i].at).Keys, KeysOf(calls));
    }
  }

  // ---------------------------------------------------------------- capacity

  /** The cache never holds more than maxEntries entries. */
  lemma {:induction false} NeverMoreThanMaxEntries(c: Cache, calls: seq<StoreCall>)
    requires 0 < c.maxEntries && |c.entries| <= c.maxEntries && LegalVictims(c, calls)
    ensures |Run(c, calls).entries| <= c.maxEntries
  {
    if calls != [] {
      var past, s := calls[..|calls| - 1], calls[|calls| - 1];
      assert forall i :: 0 <= i < |past| ==> calls[..i] == past[..i] && calls[i] == past[i];
      NeverMoreThanMaxEntries(c, past);
      EntriesAreSubMap(c, past);
      assert calls[..|past|] == past && Legal(Run(c, past), s);
      StoreKeepsSize(Run(c, past), s);
    }
  }

  lemma StoreKeepsSize(c: Cache, s: StoreCall)
    requires 0 < c.maxEntries && |c.entries| <= c.maxEntries && Legal(c, s)
    ensures |Step(c, s).entries| <= c.maxEntries
  {
    if Stores(c, s.request, s.response) {
      var purged := Purged(c, s.at);
      Smaller(purged.Keys, c.entries.Keys);
      if Evicts(c, s.at) {
        assert purged != map[];
        OneLess(purged, s.victim);
        OneMore(purged - {s.victim}, CacheKey(s.request).value, NewEntry(c, s.response.value, s.at));
      } else {
        OneMore(purged, CacheKey(s.request).value, NewEntry(c, s.response.value, s.at));
      }
    }
  }

  lemma OneLess(m: map<string, Cached>, k: string)
    requires k in m
    ensures |m - {k}| == |m| - 1
  {
  }

  lemma OneMore(m: map<string, Cached>, k: string, e: Cached)
    ensures |m[k := e]| <= |m| + 1
  {
  }

  // ---------------------------------------------------------------- overwriting in a full cache

  /** The store drops the live entry of a key it does not write. */
  ghost predicate LosesAnother(c: Cache, s: StoreCall) {
    exists k :: k in Purged(c, s.at) && Some(k) != CacheKey(s.request) && k !in Step(c, s).entries
  }

  /** The store writes a key that the cache, full even after the purge, already holds. */
  ghost predicate OverwritesInFull(c: Cache, s: StoreCall) {
    Stores(c, s.request, s.response) && Evicts(c, s.at) && CacheKey(s.request).value in Purged(c, s.at)
  }

  lemma LosesAnotherIffVictimIsAnother(c: Cache, s: StoreCall)
    requires OverwritesInFull(c, s) && Legal(c, s)
    ensures LosesAnother(c, s) <==> Some(s.victim) != CacheKey(s.request)
    ensures LosesAnother(c, s) ==> |Step(c, s).entries| == |Purged(c, s.at)| - 1
  {
    if Some(s.victim) != CacheKey(s.request) {
      assert s.victim in Purged(c, s.at) && s.victim !in Step(c, s).entries;
      OneLess(Purged(c, s.at), s.victim);
      assert Step(c, s).entries.Keys == (Purged(c, s.at) - {s.victim}).Keys;
    }
  }

  /**
   Overwriting in a full cache still evicts. Some order of the scan loses another key's entry if and
   only if another key has minimal expiry; every order does if and only if the written key has not.
   */
  lemma OverwriteLosesAnotherIff(c: Cache, s: StoreCall)
    requires OverwritesInFull(c, s)
    ensures (exists v :: Legal(c, s.(victim := v)) && LosesAnother(c, s.(victim := v))) <==>
            exists k :: IsOldest(Purged(c, s.at), k) && Some(k) != CacheKey(s.request)
    ensures (forall v :: Legal(c, s.(victim := v)) ==> LosesAnother(c, s.(victim := v))) <==>
            !IsOldest(Purged(c, s.at), CacheKey(s.request).value)
  {
    forall v | Legal(c, s.(victim := v))
      ensures IsOldest(Purged(c, s.at), v) && (LosesAnother(c, s.(victim := v)) <==> Some(v) != CacheKey(s.request))
    {
      LosesAnotherIffVictimIsAnother(c, s.(victim := v));
    }
    forall v | IsOldest(Purged(c, s.at), v) ensures Legal(c, s.(victim := v)) {}
  }

  function Named(name: string): Msg {
    SetRcode(Msg(0, 0, false, [Question(name, 1, 1)], [], [], []), RCODE_SUCCESS)
  }

  /** Storing such a message while nothing is past its stale window. */
  lemma StoreNamed(c: Cache, name: string, at: int, victim: string)
    requires c.defaultTTL > 0 && Purged(c, at) == c.entries
    ensures CacheKey(Some(Named(name))).Some?
    ensures var s := StoreCall(Some(Named(name)), Some(Named(name)), at, victim);
            var key := CacheKey(s.request).value;
            && Stores(c, s.request, s.response) && (Evicts(c, at) <==> |c.entries| >= c.maxEntries)
            && Step(c, s) ==
               var room := if Evicts(c, at) then c.entries - {victim} else c.entries;
               c.(entries := room[key := Cached(Named(name), at, at + c.defaultTTL)])
  {
    assert Records(Named(name)) == [];
  }

  lemma OneMoreCall(c: Cache, calls: seq<StoreCall>, s: StoreCall)
    ensures Run(c, calls + [s]) == Step(Run(c, calls), s)
    ensures LegalVictims(c, calls) && Legal(Run(c, calls), s) ==> LegalVictims(c, calls + [s])
  {
    hide Step, Legal;
    assert (calls + [s])[..|calls|] == calls;
    assert forall i :: 0 <= i < |calls| ==> (calls + [s])[..i] == calls[..i] && (calls + [s])[i] == calls[i];
  }

  const NAME_A := CacheKey(Some(Named("a"))).value
  const NAME_B := CacheKey(Some(Named("b"))).value

  lemma NamesDiffer()
    ensures NAME_A != NAME_B
    ensures CacheKey(Some(Named("a"))) == Some(NAME_A) && CacheKey(Some(Named("b"))) == Some(NAME_B)
  {
    assert ToLower("a")[0] != ToLower("b")[0];
    KeysCollideOnlyForSameQuestion(Named("a").question[0], Named("b").question[0]);
  }

  /** "a" at 0 and "b" at 1 fill a new cache for two entries. */
  lemma TwoStores(c: Cache) returns (calls: seq<StoreCall>)
    requires c.entries == map[] && c.maxEntries == 2 && c.defaultTTL > 2 && c.staleTTL >= 0
    ensures LegalVictims(c, calls)
    ensures Run(c, calls) == Full(c)
  {
    hide CacheKey, Named, Stores, Step;
    assert Run(c, []) == c && Purged(c, 0) == map[];
    var s1 := StoreCall(Some(Named("a")), Some(Named("a")), 0, "");
    StoreNamed(c, "a", 0, "");
    OneMoreCall(c, [], s1);
    var c1 := Step(c, s1);
    assert c1 == c.(entries := map[NAME_A := Cached(Named("a"), 0, c.defaultTTL)]);
    assert Purged(c1, 1) == c1.entries;
    StoreNamed(c1, "b", 1, "");
    OneMoreCall(c, [] + [s1], StoreCall(Some(Named("b")), Some(Named("b")), 1, ""));
    calls := [] + [s1] + [StoreCall(Some(Named("b")), Some(Named("b")), 1, "")];
  }

  function Full(c: Cache): Cache {
    c.(entries := map[NAME_A := Cached(Named("a"), 0, c.defaultTTL), NAME_B := Cached(Named("b"), 1, 1 + c.defaultTTL)])
  }

  const AGAIN := StoreCall(Some(Named("b")), Some(Named("b")), 2, NAME_A)

  lemma FullLosesA(c: Cache)
    requires c.maxEntries == 2 && c.defaultTTL > 2 && c.staleTTL >= 0
    ensures OverwritesInFull(Full(c), AGAIN) && Legal(Full(c), AGAIN)
    ensures NAME_A in Full(c).entries && NAME_A !in Step(Full(c), AGAIN).entries
  {
    hide CacheKey, Named, Stores, Step;
    var full := Full(c);
    NamesDiffer();
    assert Purged(full, 2) == full.entries;
    assert full.entries.Keys == {NAME_A, NAME_B} && |full.entries| == |full.entries.Keys| == 2;
    StoreNamed(full, "b", 2, NAME_A);
  }

  /** From a new cache for two entries: "a", "b", and "b" again loses "a", though both are fresh. */
  lemma {:induction false} OverwriteLosesAnotherFromNew(defaultTTL: int, staleTTL: int)
    returns (c: Cache, calls: seq<StoreCall>, last: StoreCall)
    requires defaultTTL > 2 && staleTTL >= 0
    ensures c == Cache(map[], 2, defaultTTL, staleTTL) && LegalVictims(c, calls + [last])
    ensures OverwritesInFull(Run(c, calls), last) && LosesAnother(Run(c, calls), last)
    ensures Get(Run(c, calls), Some(Named("a")), last.at, 0).Some?
    ensures Get(Run(c, calls + [last]), Some(Named("a")), last.at, 0).None?
  {
    hide LegalVictims, Legal, Run, Step, OverwritesInFull, Named, CacheKey;
    c := Cache(map[], 2, defaultTTL, staleTTL);
    calls := TwoStores(c);
    last := AGAIN;
    FullLosesA(c);
    OneMoreCall(c, calls, last);
    NamesDiffer();
    LosesAnotherIffVictimIsAnother(Run(c, calls), last);
  }

  /** The purge removes exactly the entries that neither read can serve, now or at any later time. */
  lemma PurgeRemovesExactlyTheUnservable(c: Cache, request: Option<Msg>, now: int, outOfRange: Word)
    requires c.staleTTL >= 0 && Find(c.entries, request).Some?
    ensures CacheKey(request).value !in Purged(c, now) <==>
            forall later :: now <= later ==>
              Get(c, request, later, outOfRange).None? && GetStale(c, request, later, outOfRange).None?
  {
    if CacheKey(request).value in Purged(c, now) {
      assert GetStale(c, request, now, outOfRange).Some?;
    }
  }

  // ---------------------------------------------------------------- ageing

  /** What Store puts in: a cacheable message whose expiry is its storage time plus its TTL,
      which fits time.Duration's 63 bits when it comes from a record. */
  ghost predicate WellTimed(c: Cache, e: Cached) {
    && e.message.rcode == 0 && !e.message.truncated
    && e.expiresAt == e.storedAt + EntryTTL(e.message, c.defaultTTL) > e.storedAt
    && (LeastNonzero(Records(e.message)) != 0 ==> e.expiresAt - e.storedAt < 0x8000_0000_0000_0000)
  }

  lemma {:induction false} EntriesStayWellTimed(c: Cache, calls: seq<StoreCall>)
    requires c.entries == map[]
    ensures SameSettings(c, Run(c, calls))
    ensures forall k :: k in Run(c, calls).entries ==> WellTimed(c, Run(c, calls).entries[k])
  {
    if calls != [] {
      EntriesStayWellTimed(c, calls[..|calls| - 1]);
    }
  }

  /** A record's TTL on a hit: never zero, and within one second of what is left. */
  ghost predicate AgedExactly(e: Cached, before: RR, after: RR, now: int) {
    && after.data == before.data
    && (before.ttl == 0 ==> after.ttl == 0)
    && (before.ttl != 0 ==>
          && 1 <= after.ttl
          && e.storedAt + before.ttl * SECOND <= now + after.ttl * SECOND < e.storedAt + before.ttl * SECOND + SECOND)
  }

  /** The read's time is a second or more before the entry's: the elapsed seconds are below zero. */
  predicate ReadsAhead(e: Cached, now: int) {
    now <= e.storedAt - SECOND
  }

  /** While an entry with a nonzero TTL is fresh, its age in seconds is below every such TTL. */
  lemma FreshAgeIsBelowTTL(c: Cache, e: Cached, now: int, outOfRange: Word, r: RR)
    requires WellTimed(c, e) && !ReadsAhead(e, now) && now < e.expiresAt && r in Records(e.message) && r.ttl != 0
    ensures var age := Latest(e, now) - e.storedAt;
            ElapsedSeconds(e.storedAt, now, outOfRange) == age / SECOND < r.ttl
  {
    LeastNonzeroIsLeast(Records(e.message));
    var least := LeastNonzero(Records(e.message));
    assert now - e.storedAt < least * SECOND;
    assert (Latest(e, now) - e.storedAt) / SECOND < least;
  }

  /** A read less than a second ahead of the entry counts as one at its storage. */
  function Latest(e: Cached, now: int): int {
    if now < e.storedAt then e.storedAt else now
  }

  /**
   Exact ageing: on a hit every record with a nonzero TTL returns a TTL of at least one, off by
   less than a second, so the clamp to zero is never reached. Only a read a second or more ahead of
   the storage ages by the out-of-range conversion instead.
   */
  lemma HitsAgeExactly(c: Cache, calls: seq<StoreCall>, request: Option<Msg>, now: int, outOfRange: Word)
    requires c.entries == map[] && Get(Run(c, calls), request, now, outOfRange).Some?
    ensures var e := Find(Run(c, calls).entries, request).value;
            var stored, got := Records(e.message), Records(Get(Run(c, calls), request, now, outOfRange).value);
            && |got| == |stored|
            && forall i :: 0 <= i < |stored| ==>
                 if ReadsAhead(e, now) then got[i] == stored[i].(ttl := AgedTTL(stored[i].ttl, outOfRange))
                 else AgedExactly(e, stored[i], got[i], Latest(e, now))
  {
    EntriesStayWellTimed(c, calls);
    var e := Find(Run(c, calls).entries, request).value;
    var elapsed := ElapsedSeconds(e.storedAt, now, outOfRange);
    var stored, got := Records(e.message), Records(Aged(e, request, now, outOfRange));
    RecordsAge(e.message, request, elapsed);
    forall i | 0 <= i < |stored|
      ensures if ReadsAhead(e, now) then got[i] == stored[i].(ttl := AgedTTL(stored[i].ttl, outOfRange))
              else AgedExactly(e, stored[i], got[i], Latest(e, now))
    {
      assert got[i] == stored[i].(ttl := AgedTTL(stored[i].ttl, elapsed));
      if stored[i].ttl != 0 && !ReadsAhead(e, now) {
        FreshAgeIsBelowTTL(c, e, now, outOfRange, stored[i]);
      }
    }
  }

  lemma RecordsAge(m: Msg, request: Option<Msg>, elapsed: Word)
    ensures var w := WithId(m, request);
            Records(w.(answer := AgedRecords(w.answer, elapsed), ns := AgedRecords(w.ns, elapsed),
                       extra := AgedRecords(w.extra, elapsed))) == AgedRecords(Records(m), elapsed)
  {
  }

  /**
   A hit depends on what the platform makes of an out-of-range conversion if and only if it reads a
   second or more ahead of the storage and some record has a TTL to age.
   */
  lemma OutOfRangeShowsIffReadAhead(c: Cache, calls: seq<StoreCall>, request: Option<Msg>, now: int)
    requires c.entries == map[] && Get(Run(c, calls), request, now, 0).Some?
    ensures var e := Find(Run(c, calls).entries, request).value;
            (forall a, b :: Get(Run(c, calls), request, now, a) == Get(Run(c, calls), request, now, b)) <==>
            LeastNonzero(Records(e.message)) == 0 || !ReadsAhead(e, now)
    ensures forall a :: GetStale(Run(c, calls), request, now, a) == Get(Run(c, calls), request, now, a)
  {
    var end := Run(c, calls);
    var e := Find(end.entries, request).value;
    EntriesStayWellTimed(c, calls);
    LeastNonzeroIsLeast(Records(e.message));
    if LeastNonzero(Records(e.message)) == 0 || !ReadsAhead(e, now) {
      forall a, b ensures Get(end, request, now, a) == Get(end, request, now, b) {
        SameAge(c, e, request, now, a, b);
      }
    } else {
      var i :| 0 <= i < |Records(e.message)| && Records(e.message)[i].ttl != 0;
      RecordsAge(e.message, request, 0);
      RecordsAge(e.message, request, Records(e.message)[i].ttl);
      assert Records(Get(end, request, now, 0).value)[i].ttl != 0;
      assert Records(Get(end, request, now, Records(e.message)[i].ttl).value)[i].ttl == 0;
    }
  }

  lemma SameAge(c: Cache, e: Cached, request: Option<Msg>, now: int, a: Word, b: Word)
    requires WellTimed(c, e) && now < e.expiresAt
    requires LeastNonzero(Records(e.message)) == 0 || !ReadsAhead(e, now)
    ensures Aged(e, request, now, a) == Aged(e, request, now, b)
  {
    LeastNonzeroIsLeast(Records(e.message));
    var m := e.message;
    forall r | r in Records(m)
      ensures AgedTTL(r.ttl, ElapsedSeconds(e.storedAt, now, a)) == AgedTTL(r.ttl, ElapsedSeconds(e.storedAt, now, b)) {
      if r.ttl != 0 {
        FreshAgeIsBelowTTL(c, e, now, a, r);
        FreshAgeIsBelowTTL(c, e, now, b, r);
      }
    }
    hide ElapsedSeconds, AgedTTL;
    var x, y := ElapsedSeconds(e.storedAt, now, a), ElapsedSeconds(e.storedAt, now, b);
    SectionsAgree(m.answer, m, x, y);
    SectionsAgree(m.ns, m, x, y);
    SectionsAgree(m.extra, m, x, y);
  }

  lemma SectionsAgree(rs: seq<RR>, m: Msg, x: Word, y: Word)
    requires forall r :: r in Records(m) ==> AgedTTL(r.ttl, x) == AgedTTL(r.ttl, y)
    requires rs == m.answer || rs == m.ns || rs == m.extra
    ensures AgedRecords(rs, x) == AgedRecords(rs, y)
  {
    assert forall i :: 0 <= i < |rs| ==> rs[i] in Records(m);
  }

  // ---------------------------------------------------------------- the life of one answer

  /** The time at which an answer stops being fresh: when its first nonzero TTL runs out. */
  ghost predicate ExpiresAt(m: Msg, at: int, defaultTTL: int, end: int) {
    if exists r :: r in Records(m) && r.ttl != 0
    then && (forall r :: r in Records(m) && r.ttl != 0 ==> end <= at + r.ttl * 1_000_000_000)
         && (exists r :: r in Records(m) && r.ttl != 0 && end == at + r.ttl * 1_000_000_000)
    else end == at + defaultTTL
  }

  lemma ExpiryIsFirstTTL(c: Cache, m: Msg, at: int)
    ensures ExpiresAt(m, at, c.defaultTTL, at + EntryTTL(m, c.defaultTTL))
    ensures EntryTTL(m, c.defaultTTL) > 0 <==> c.defaultTTL > 0 || exists r :: r in Records(m) && r.ttl != 0
  {
    LeastNonzeroIsLeast(Records(m));
  }

  /** What the cache keeps: answers to a question, successful, not truncated, with time left to live. */
  ghost predicate Keepable(c: Cache, request: Msg, m: Msg) {
    && request.question != [] && m.rcode == 0 && !m.truncated
    && (c.defaultTTL > 0 || exists r :: r in Records(m) && r.ttl != 0)
  }

  /** Everything else leaves the cache as it is. */
  lemma OnlyKeepableIsStored(c: Cache, request: Msg, m: Msg, at: int, victim: string)
    ensures !Keepable(c, request, m) ==> Stored(c, Some(request), Some(m), at, victim) == c
    ensures Stored(c, None, Some(m), at, victim) == Stored(c, Some(request), None, at, victim) == c
  {
    ExpiryIsFirstTTL(c, m, at);
  }

  /** The message with the asker's id; only TTLs may differ otherwise. */
  ghost predicate AnswersAsker(got: Msg, asker: Msg, m: Msg) {
    got.id == asker.id && CopyUpToIdAndTtls(got, m)
  }

  /**
   Right after its store an answer is served to every request for the same name, type and class, under
   that request's id: as fresh until its first TTL runs out, as stale with every TTL 1 for the stale
   time after that, and not at all later. Fresh TTLs are those of HitsAgeExactly.
   */
  lemma StoredAnswerIsServed(
    c: Cache, request: Msg, m: Msg, at: int, victim: string, asker: Msg, now: int, outOfRange: Word)
    requires Keepable(c, request, m) && c.staleTTL >= 0
    requires asker.question != [] && SameQuestion(asker.question[0], request.question[0])
    ensures var after := Stored(c, Some(request), Some(m), at, victim);
            var got, stale := Get(after, Some(asker), now, outOfRange), GetStale(after, Some(asker), now, outOfRange);
            forall end :: ExpiresAt(m, at, c.defaultTTL, end) ==>
              && (got.Some? <==> now < end) && (stale.Some? <==> now <= end + c.staleTTL)
              && (now < end ==> stale == got)
              && (got.Some? ==> AnswersAsker(got.value, asker, m))
              && (stale.Some? ==> AnswersAsker(stale.value, asker, m))
              && (now >= end && stale.Some? ==> forall r :: r in Records(stale.value) ==> r.ttl == 1)
  {
    hide ElapsedSeconds, AgedTTL, LeastNonzero, KeyText;
    ExpiryIsFirstTTL(c, m, at);
    KeysCollideOnlyForSameQuestion(asker.question[0], request.question[0]);
    var after := Stored(c, Some(request), Some(m), at, victim);
    var e := Cached(m, at, at + EntryTTL(m, c.defaultTTL));
    assert Find(after.entries, Some(asker)) == Some(e);
    forall end | ExpiresAt(m, at, c.defaultTTL, end) ensures end == e.expiresAt {
      OneExpiry(m, at, c.defaultTTL, end, e.expiresAt);
    }
    hide ExpiresAt, CacheKey, EntryTTL, Stored, ElapsedSeconds, AgedTTL, Purged;
  }

  lemma OneExpiry(m: Msg, at: int, defaultTTL: int, a: int, b: int)
    requires ExpiresAt(m, at, defaultTTL, a) && ExpiresAt(m, at, defaultTTL, b)
    ensures a == b
  {
  }

  /** A full store drops the purge's leavings' oldest entry: none of the others expires before it. */
  lemma EvictedExpiresFirst(c: Cache, s: StoreCall, k: string)
    requires Legal(c, s) && k in Purged(c, s.at) && k !in Step(c, s).entries
    ensures forall j :: j in Purged(c, s.at) ==> c.entries[k].expiresAt <= c.entries[j].expiresAt
    ensures forall j :: j in Purged(c, s.at) && j != k ==> j in Step(c, s).entries
    ensures |Purged(c, s.at)| >= c.maxEntries
  {
  }
}
