/**
 Gateway credentials: a scan of every active tenant's suppliers behind a cache
 with a time to live, and key rotation. Each call is one atomic step.
 */
module AuthCache {
  import opened Wrappers
  import opened Strings

  const AUTH_CACHE_TTL_MS := 60_000
  const PRUNE_SIZE := 10_000

  datatype Supplier = Supplier(id: int, username: string, password: Option<string>, apiKey: Option<string>,
                               active: bool, deleted: bool)

  /** A broken schema makes every query in it fail. */
  datatype Tenant = Tenant(id: int, schemaName: string, active: bool, broken: bool, suppliers: seq<Supplier>)

  type Database = seq<Tenant>

  datatype AuthResult = AuthResult(tenantId: int, schemaName: string, supplierId: int, username: string)

  datatype Credential = ByKey(apiKey: string) | ByPassword(username: string, password: string)

  // ---- the scan ----

  predicate Matches(s: Supplier, c: Credential) {
    && s.active && !s.deleted
    && match c
       case ByKey(k) => s.apiKey == Some(k)
       case ByPassword(u, p) => s.username == u && (if s.password.Some? then s.password.value else "") == p
  }

  /** The first matching supplier of a tenant, in row order. */
  function FirstMatch(rows: seq<Supplier>, c: Credential): Option<Supplier> {
    if rows == [] then None else if Matches(rows[0], c) then Some(rows[0]) else FirstMatch(rows[1..], c)
  }

  predicate Readable(t: Tenant) {
    t.active && !t.broken
  }

  function Scan(db: Database, c: Credential): Option<AuthResult> {
    if db == [] then None
    else
      var m := if Readable(db[0]) then FirstMatch(db[0].suppliers, c) else None;
      if m.Some? then Some(AuthResult(db[0].id, db[0].schemaName, m.value.id, m.value.username)) else Scan(db[1..], c)
  }

  /** The scan answers exactly when some readable tenant has a matching supplier. */
  lemma {:induction false} ScanFinds(db: Database, c: Credential)
    ensures Scan(db, c).Some? <==>
            exists t, s :: t in db && Readable(t) && s in t.suppliers && Matches(s, c)
  {
    if db != [] {
      FirstMatchFinds(db[0].suppliers, c);
      ScanFinds(db[1..], c);
      assert db == [db[0]] + db[1..];
    }
  }

  lemma {:induction false} FirstMatchFinds(rows: seq<Supplier>, c: Credential)
    ensures FirstMatch(rows, c).Some? <==> exists s :: s in rows && Matches(s, c)
  {
    if rows != [] {
      FirstMatchFinds(rows[1..], c);
      assert rows == [rows[0]] + rows[1..];
    }
  }

  // ---- the cache ----

  datatype Cached = Cached(result: Option<AuthResult>, at: int)

  function CacheKey(c: Credential): string {
    match c
    case ByKey(k) => "k:" + k
    case ByPassword(u, p) => u + "\0" + p
  }

  function Fresh(cache: map<string, Cached>, key: string, now: int): Option<Cached> {
    if key in cache && now - cache[key].at < AUTH_CACHE_TTL_MS then Some(cache[key]) else None
  }

  function Pruned(cache: map<string, Cached>, now: int): map<string, Cached> {
    map k | k in cache && now - cache[k].at <= AUTH_CACHE_TTL_MS :: cache[k]
  }

  function Answer(cache: map<string, Cached>, db: Database, c: Credential, now: int): Option<AuthResult> {
    var f := Fresh(cache, CacheKey(c), now);
    if f.Some? then f.value.result else Scan(db, c)
  }

  /** The cache after a look-up; `prunes` switches the size-triggered pruning. */
  function After(cache: map<string, Cached>, db: Database, c: Credential, now: int, prunes: bool): map<string, Cached> {
    var f := Fresh(cache, CacheKey(c), now);
    if f.Some? then cache
    else
      var r := Scan(db, c);
      var m := cache[CacheKey(c) := Cached(r, now)];
      if prunes && c.ByPassword? && r.Some? && |m| > PRUNE_SIZE then Pruned(m, now) else m
  }

  function Evicted(cache: map<string, Cached>): map<string, Cached> {
    map k | k in cache && !StartsWith(k, "k:") :: cache[k]
  }

  /** UPDATE suppliers SET gateway_api_key ... in one schema. */
  function WithKey(rows: seq<Supplier>, id: int, key: string): (r: seq<Supplier>)
    ensures |r| == |rows|
  {
    seq(|rows|, i requires 0 <= i < |rows| =>
      if rows[i].id == id && !rows[i].deleted then rows[i].(apiKey := Some(key)) else rows[i])
  }

  predicate Rotates(t: Tenant, schemaName: string, id: int) {
    t.schemaName == schemaName && !t.broken && exists i | 0 <= i < |t.suppliers| :: t.suppliers[i].id == id && !t.suppliers[i].deleted
  }

  function Rotated(db: Database, schemaName: string, id: int, key: string): (r: Database)
    ensures |r| == |db|
  {
    seq(|db|, i requires 0 <= i < |db| =>
      if Rotates(db[i], schemaName, id) then db[i].(suppliers := WithKey(db[i].suppliers, id, key)) else db[i])
  }

  predicate AnyRotates(db: Database, schemaName: string, id: int) {
    exists i | 0 <= i < |db| :: Rotates(db[i], schemaName, id)
  }

  /** The calls that touch the cache: a look-up in the tables of that moment, and a rotation's eviction. */
  datatype Call =
    | LookUp(db: Database, credential: Credential, now: int)
    | Evict

  /** The cache after these calls. */
  function CacheAfter(calls: seq<Call>, prunes: bool): map<string, Cached> {
    if calls == [] then map[]
    else
      var m := CacheAfter(calls[..|calls| - 1], prunes);
      match calls[|calls| - 1]
      case LookUp(db, c, now) => After(m, db, c, now, prunes)
      case Evict => Evicted(m)
  }

  lemma CacheStep(calls: seq<Call>, call: Call, prunes: bool)
    ensures CacheAfter(calls + [call], prunes) ==
            match call
            case LookUp(db, c, now) => After(CacheAfter(calls, prunes), db, c, now, prunes)
            case Evict => Evicted(CacheAfter(calls, prunes))
  {
    hide After, Evicted;
    assert (calls + [call])[..|calls|] == calls;
  }

  /** A look-up made within the last TTL, under the same cache key, would have got this answer from its scan. */
  ghost predicate RecentlyScanned(calls: seq<Call>, c: Credential, now: int, answer: Option<AuthResult>) {
    exists i :: 0 <= i < |calls| && calls[i].LookUp? && now - calls[i].now < AUTH_CACHE_TTL_MS
      && CacheKey(calls[i].credential) == CacheKey(c)
      && Scan(calls[i].db, calls[i].credential) == answer
  }

  /** A cached entry is the scan of a look-up under its key, made at its time. */
  ghost predicate Backed(calls: seq<Call>, key: string, entry: Cached) {
    exists i :: 0 <= i < |calls| && calls[i].LookUp? && calls[i].now == entry.at
      && CacheKey(calls[i].credential) == key
      && Scan(calls[i].db, calls[i].credential) == entry.result
  }

  lemma BackedGrows(calls: seq<Call>, call: Call, key: string, entry: Cached)
    ensures Backed(calls, key, entry) ==> Backed(calls + [call], key, entry)
    ensures (call.LookUp? && CacheKey(call.credential) == key
             && entry == Cached(Scan(call.db, call.credential), call.now)) ==> Backed(calls + [call], key, entry)
  {
    assert (calls + [call])[|calls|] == call;
    if Backed(calls, key, entry) {
      var i :| 0 <= i < |calls| && calls[i].LookUp? && calls[i].now == entry.at
               && CacheKey(calls[i].credential) == key
               && Scan(calls[i].db, calls[i].credential) == entry.result;
      assert (calls + [call])[i] == calls[i];
    }
  }

  /** Entries after a call were there before it, or are its own scan. */
  lemma AfterEntries(cache: map<string, Cached>, db: Database, c: Credential, now: int, prunes: bool, key: string)
    requires key in After(cache, db, c, now, prunes)
    ensures var e := After(cache, db, c, now, prunes)[key];
            || (key in cache && e == cache[key])
            || (key == CacheKey(c) && e == Cached(Scan(db, c), now))
  {
    hide Scan, CacheKey;
  }

  lemma {:induction false} CacheIsBacked(calls: seq<Call>, prunes: bool, key: string)
    requires key in CacheAfter(calls, prunes)
    ensures Backed(calls, key, CacheAfter(calls, prunes)[key])
    decreases |calls|
  {
    if |calls| > 0 {
      hide After, Backed, Scan, CacheKey, Fresh;
      var before, call := calls[..|calls| - 1], calls[|calls| - 1];
      assert calls == before + [call];
      BackedGrows(before, call, key, CacheAfter(calls, prunes)[key]);
      if key in CacheAfter(before, prunes) {
        CacheIsBacked(before, prunes, key);
      }
      if call.LookUp? {
        AfterEntries(CacheAfter(before, prunes), call.db, call.credential, call.now, prunes, key);
      }
    }
  }

  /** Every answer, over every run, is that of a scan made within the last TTL under the same cache key. */
  lemma AnswersAreScans(calls: seq<Call>, db: Database, c: Credential, now: int)
    ensures RecentlyScanned(calls + [LookUp(db, c, now)], c, now, Answer(CacheAfter(calls, true), db, c, now))
  {
    hide Scan, CacheKey;
    var m, all := CacheAfter(calls, true), calls + [LookUp(db, c, now)];
    var f := Fresh(m, CacheKey(c), now);
    if f.Some? {
      CacheIsBacked(calls, true, CacheKey(c));
      var i :| 0 <= i < |calls| && calls[i].LookUp? && calls[i].now == f.value.at
               && CacheKey(calls[i].credential) == CacheKey(c)
               && Scan(calls[i].db, calls[i].credential) == f.value.result;
      assert all[i] == calls[i];
    } else {
      assert all[|calls|] == LookUp(db, c, now);
    }
  }

  /** The credential as it is looked up: names and keys trimmed. */
  function Trimmed(c: Credential): Credential {
    match c
    case ByKey(k) => ByKey(Trim(k))
    case ByPassword(u, p) => ByPassword(Trim(u), p)
  }

  predicate Blank(c: Credential) {
    match c
    case ByKey(k) => |k| == 0
    case ByPassword(u, _) => |u| == 0
  }

  class Gateway {
    var db: Database
    var cache: map<string, Cached>
    ghost var calls: seq<Call>

    ghost predicate Valid()
      reads this
    {
      cache == CacheAfter(calls, true)
    }

    constructor (db: Database)
      ensures Valid() && this.db == db && cache == map[] && calls == []
    {
      this.db := db;
      cache := map[];
      calls := [];
    }

    /** Anything else that changes the tables. */
    method ChangeDatabase(now: Database)
      requires Valid()
      modifies this`db
      ensures Valid() && db == now
    {
      db := now;
    }

    /** The loop over tenants, and in each over the rows its SELECT returns. */
    method ScanTenants(c: Credential) returns (r: Option<AuthResult>)
      ensures r == Scan(db, c)
    {
      for i := 0 to |db|
        invariant Scan(db[i..], c) == Scan(db, c)
      {
        var t := db[i];
        assert db[i..][0] == t && db[i..][1..] == db[i + 1..];
        if t.active && !t.broken {
          for j := 0 to |t.suppliers|
            invariant FirstMatch(t.suppliers[j..], c) == FirstMatch(t.suppliers, c)
          {
            var s := t.suppliers[j];
            assert t.suppliers[j..][0] == s && t.suppliers[j..][1..] == t.suppliers[j + 1..];
            if Matches(s, c) {
              return Some(AuthResult(t.id, t.schemaName, s.id, s.username));
            }
          }
        }
      }
      r := None;
    }

    method Prune(now: int)
      modifies this`cache
      ensures cache == Pruned(old(cache), now)
    {
      ghost var start := cache;
      var todo := cache.Keys;
      while todo != {}
        invariant todo <= cache.Keys <= start.Keys
        invariant forall k :: k in cache ==> cache[k] == start[k]
        invariant forall k :: k in start && k !in todo ==> (k in cache <==> now - start[k].at <= AUTH_CACHE_TTL_MS)
        decreases |todo|
      {
        var k :| k in todo;
        if now - cache[k].at > AUTH_CACHE_TTL_MS {
          cache := cache - {k};
        }
        todo := todo - {k};
      }
    }

    /** The look-up of a trimmed, non-blank credential. */
    method LookUpCredential(c: Credential, now: int) returns (answer: Option<AuthResult>)
      requires Valid()
      modifies this`cache, this`calls
      ensures Valid() && calls == old(calls) + [LookUp(db, c, now)]
      ensures cache == After(old(cache), db, c, now, true) && answer == Answer(old(cache), db, c, now)
      ensures RecentlyScanned(calls, c, now, answer)
    {
      hide Scan, CacheKey, CacheAfter, RecentlyScanned;
      AnswersAreScans(calls, db, c, now);
      CacheStep(calls, LookUp(db, c, now), true);
      calls := calls + [LookUp(db, c, now)];
      var key := CacheKey(c);
      if key in cache && now - cache[key].at < AUTH_CACHE_TTL_MS {
        return cache[key].result;
      }
      answer := ScanTenants(c);
      cache := cache[key := Cached(answer, now)];
      if c.ByPassword? && answer.Some? && |cache| > PRUNE_SIZE {
        Prune(now);
      }
    }

    /**
     authenticateGateway and authenticateGatewayByApiKey: each non-blank call is
     logged with the tables it could read, and answered from the cache that the
     calls logged before it determine.
     */
    method Authenticate(raw: Credential, now: int) returns (answer: Option<AuthResult>)
      requires Valid()
      modifies this`cache, this`calls
      ensures Valid()
      ensures Blank(Trimmed(raw)) ==> answer.None? && cache == old(cache) && calls == old(calls)
      ensures !Blank(Trimmed(raw)) ==>
                && Asked(Trimmed(raw)) && calls == old(calls) + [LookUp(db, Trimmed(raw), now)]
                && answer == Answer(CacheAfter(old(calls), true), db, Trimmed(raw), now)
                && RecentlyScanned(calls, Trimmed(raw), now, answer)
    {
      var c := Trimmed(raw);
      if Blank(c) {
        return None;
      }
      TrimmedIsAsked(raw);
      answer := LookUpCredential(c, now);
    }

    /** rotateGatewayApiKey, for a freshly drawn key. */
    method Rotate(schemaName: string, supplierId: int, newKey: string) returns (r: Option<string>)
      requires Valid()
      modifies this`db, this`cache, this`calls
      ensures Valid() && calls == if r.Some? then old(calls) + [Evict] else old(calls)
      ensures r == if AnyRotates(old(db), schemaName, supplierId) then Some(newKey) else None
      ensures db == if r.Some? then Rotated(old(db), schemaName, supplierId, newKey) else old(db)
      ensures cache == if r.Some? then Evicted(old(cache)) else old(cache)
    {
      hide Rotated, CacheAfter;
      if !AnyRotates(db, schemaName, supplierId) {
        return None;
      }
      db := Rotated(db, schemaName, supplierId, newKey);
      CacheStep(calls, Evict, true);
      cache := EvictKeys(cache);
      calls := calls + [Evict];
      r := Some(newKey);
    }
  }

  /** The eviction loop over the cache's keys. */
  method EvictKeys(start: map<string, Cached>) returns (cache: map<string, Cached>)
    ensures cache == Evicted(start)
  {
    cache := start;
    var todo := start.Keys;
    while todo != {}
      invariant todo <= cache.Keys <= start.Keys
      invariant forall k :: k in cache ==> cache[k] == start[k]
      invariant forall k :: k in start && k !in todo ==> (k in cache <==> !StartsWith(k, "k:"))
      decreases |todo|
    {
      var k :| k in todo;
      if StartsWith(k, "k:") {
        cache := cache - {k};
      }
      todo := todo - {k};
    }
  }

  // ---- cache keys ----

  /** Names and keys without NUL characters; a password may hold any. */
  predicate NulFree(c: Credential) {
    match c
    case ByKey(k) => '\0' !in k
    case ByPassword(u, _) => '\0' !in u
  }

  lemma NulAt(u: string, p: string)
    requires '\0' !in u
    ensures var s := u + "\0" + p;
            s[|u|] == '\0' && (forall i :: 0 <= i < |u| ==> s[i] != '\0') && s[..|u|] == u && s[|u| + 1..] == p
  {
    var s := u + "\0" + p;
    assert forall i :: 0 <= i < |u| ==> s[i] == u[i];
  }

  lemma NulApart(k: string, u: string, p: string)
    requires '\0' !in k
    ensures "k:" + k != u + "\0" + p
  {
    assert (u + "\0" + p)[|u|] == '\0';
    assert forall i :: 0 <= i < |"k:" + k| ==> ("k:" + k)[i] != '\0';
  }

  /** NUL-free credentials with the same cache key are the same. */
  lemma CacheKeyInjective(c: Credential, d: Credential)
    requires NulFree(c) && NulFree(d) && CacheKey(c) == CacheKey(d)
    ensures c == d
  {
    match (c, d)
    case (ByPassword(u, p), ByPassword(u', p')) =>
      NulAt(u, p);
      NulAt(u', p');
    case (ByKey(k), ByKey(k')) =>
      assert ("k:" + k)[2..] == k && ("k:" + k')[2..] == k';
    case (ByKey(k), ByPassword(u, p)) => NulApart(k, u, p);
    case (ByPassword(u, p), ByKey(k)) => NulApart(k, u, p);
  }

  /** No other credential, with any characters, has the cache key of this one. */
  predicate Alone(c: Credential) {
    match c
    case ByKey(k) => '\0' !in k
    case ByPassword(u, p) => '\0' !in u && '\0' !in p && !StartsWith(u, "k:")
  }

  lemma CutAt(s: string, i: nat)
    requires i < |s| && s[i] == '\0'
    ensures s == s[..i] + "\0" + s[i + 1..]
  {
  }

  /** A NUL can be read as the separator of a name and a password, and a name k:... as an API key. */
  lemma Partner(c: Credential) returns (d: Credential)
    requires !Alone(c)
    ensures d != c && CacheKey(d) == CacheKey(c)
    ensures d.ByKey? ==> c.ByPassword? && |c.username| > 0
  {
    match c
    case ByKey(k) =>
      var i :| 0 <= i < |k| && k[i] == '\0';
      CutAt(k, i);
      d := ByPassword("k:" + k[..i], k[i + 1..]);
      assert "k:" + (k[..i] + "\0" + k[i + 1..]) == "k:" + k[..i] + "\0" + k[i + 1..];
    case ByPassword(u, p) =>
      if '\0' in u {
        var i :| 0 <= i < |u| && u[i] == '\0';
        CutAt(u, i);
        d := ByPassword(u[..i], u[i + 1..] + "\0" + p);
        assert u[..i] + "\0" + (u[i + 1..] + "\0" + p) == u[..i] + "\0" + u[i + 1..] + "\0" + p;
      } else if '\0' in p {
        var i :| 0 <= i < |p| && p[i] == '\0';
        CutAt(p, i);
        d := ByPassword(u + "\0" + p[..i], p[i + 1..]);
        assert u + "\0" + p[..i] + "\0" + p[i + 1..] == u + "\0" + (p[..i] + "\0" + p[i + 1..]);
      } else {
        d := ByKey(u[2..] + "\0" + p);
        assert u == "k:" + u[2..];
        assert "k:" + (u[2..] + "\0" + p) == "k:" + u[2..] + "\0" + p;
      }
  }

  lemma OneNul(u: string, p: string, v: string, q: string)
    requires '\0' !in u && '\0' !in p && u + "\0" + p == v + "\0" + q
    ensures u == v && p == q
  {
    var s := u + "\0" + p;
    assert forall i :: 0 <= i < |u| ==> s[i] == u[i];
    assert forall i :: 0 <= i < |p| ==> s[|u| + 1 + i] == p[i];
    forall i | 0 <= i < |s| && i != |u|
      ensures s[i] != '\0'
    {
      assert i > |u| ==> s[i] == p[i - |u| - 1];
    }
    assert s[|v|] == '\0';
    assert s[..|u|] == u && s[|u| + 1..] == p && s[..|v|] == v && s[|v| + 1..] == q;
  }

  lemma BeginsAsKey(u: string)
    ensures StartsWith(u, "k:") <==> |u| >= 2 && u[0] == 'k' && u[1] == ':'
  {
    assert |u| >= 2 ==> u[..2] == [u[0], u[1]];
  }

  lemma KeyApart(k: string, u: string, p: string)
    requires !StartsWith(u, "k:") && '\0' !in u
    ensures "k:" + k != u + "\0" + p
  {
    var a, b := "k:" + k, u + "\0" + p;
    assert a[0] == 'k' && a[1] == ':' && b[|u|] == '\0';
    assert |u| >= 2 ==> b[0] == u[0] && b[1] == u[1];
    BeginsAsKey(u);
  }

  lemma AloneOnly(c: Credential, d: Credential)
    requires Alone(c) && CacheKey(d) == CacheKey(c)
    ensures d == c
  {
    match (c, d)
    case (ByPassword(u, p), ByPassword(v, q)) => OneNul(u, p, v, q);
    case (ByKey(k), ByKey(l)) => assert ("k:" + k)[2..] == k && ("k:" + l)[2..] == l;
    case (ByKey(k), ByPassword(u, p)) => NulApart(k, u, p);
    case (ByPassword(u, p), ByKey(k)) => KeyApart(k, u, p);
  }

  /**
   Another credential shares this one's cache entry if and only if its name or
   API key holds a NUL, its password holds one, or its name begins with k:.
   */
  lemma SharesEntryIff(c: Credential)
    ensures (exists d :: d != c && CacheKey(d) == CacheKey(c)) <==> !Alone(c)
  {
    if Alone(c) {
      forall d | CacheKey(d) == CacheKey(c)
        ensures d == c
      {
        AloneOnly(c, d);
      }
    } else {
      var d := Partner(c);
    }
  }

  /** With a NUL in its name or API key, every credential shares its cache entry with another. */
  lemma NulKeysCollide(c: Credential)
    requires !NulFree(c)
    ensures exists d :: d != c && CacheKey(d) == CacheKey(c)
  {
    SharesEntryIff(c);
  }

  ghost predicate AllNulFree(calls: seq<Call>) {
    forall i :: 0 <= i < |calls| && calls[i].LookUp? ==> NulFree(calls[i].credential)
  }

  /** The answer is the full scan for this very credential, now or at one of its own look-ups within the last TTL. */
  ghost predicate OwnScan(calls: seq<Call>, db: Database, c: Credential, now: int) {
    var answer := Answer(CacheAfter(calls, true), db, c, now);
    || answer == Scan(db, c)
    || exists i :: 0 <= i < |calls| && calls[i].LookUp? && calls[i].credential == c
                   && now - calls[i].now < AUTH_CACHE_TTL_MS && Scan(calls[i].db, c) == answer
  }

  lemma OwnScanIfOnly(calls: seq<Call>, db: Database, c: Credential, now: int)
    requires forall i :: 0 <= i < |calls| && calls[i].LookUp? && CacheKey(calls[i].credential) == CacheKey(c) ==>
                           calls[i].credential == c
    ensures OwnScan(calls, db, c, now)
  {
    hide Scan, CacheKey, CacheAfter, Answer;
    var answer, all := Answer(CacheAfter(calls, true), db, c, now), calls + [LookUp(db, c, now)];
    AnswersAreScans(calls, db, c, now);
    var i :| 0 <= i < |all| && all[i].LookUp? && now - all[i].now < AUTH_CACHE_TTL_MS
             && CacheKey(all[i].credential) == CacheKey(c)
             && Scan(all[i].db, all[i].credential) == answer;
    if i < |calls| {
      assert all[i] == calls[i];
    }
  }

  /**
   Over every run, when no NUL was ever looked up or this credential shares its
   entry with no other, every answer is a scan of its own.
   */
  lemma AnswersAreRecentScans(calls: seq<Call>, db: Database, c: Credential, now: int)
    requires Alone(c) || (NulFree(c) && AllNulFree(calls))
    ensures OwnScan(calls, db, c, now)
  {
    hide Alone, NulFree, CacheKey, OwnScan;
    forall i | 0 <= i < |calls| && calls[i].LookUp? && CacheKey(calls[i].credential) == CacheKey(c)
      ensures calls[i].credential == c
    {
      if Alone(c) {
        AloneOnly(c, calls[i].credential);
      } else {
        CacheKeyInjective(calls[i].credential, c);
      }
    }
    OwnScanIfOnly(calls, db, c, now);
  }

  // ---- answers that belong to another credential ----

  /** Tables with one supplier, whom this credential matches. */
  function Only(d: Credential): Database {
    var s := match d
             case ByKey(k) => Supplier(0, "", None, Some(k), true, false)
             case ByPassword(u, p) => Supplier(0, u, Some(p), None, true, false);
    [Tenant(0, "", true, false, [s])]
  }

  lemma OnlyMatches(d: Credential, c: Credential)
    requires c != d && (d.ByKey? && c.ByPassword? ==> |c.username| > 0)
    ensures Scan(Only(d), d).Some? && Scan(Only(d), c).None?
  {
    var rows := Only(d)[0].suppliers;
    assert FirstMatch(rows[1..], c).None? && Scan(Only(d)[1..], c).None?;
  }

  /** One look-up of a credential with the same cache key is enough for a wrong answer. */
  lemma WrongAnswer(c: Credential, d: Credential, now: int)
    requires c != d && CacheKey(c) == CacheKey(d) && (d.ByKey? && c.ByPassword? ==> |c.username| > 0)
    ensures Answer(CacheAfter([LookUp(Only(d), d, now)], true), Only(d), c, now) != Scan(Only(d), c)
    ensures !OwnScan([LookUp(Only(d), d, now)], Only(d), c, now)
  {
    OnlyMatches(d, c);
    hide Scan, CacheKey, Only;
    var call := LookUp(Only(d), d, now);
    CacheStep([], call, true);
    assert [] + [call] == [call];
    assert CacheAfter([], true) == map[];
  }

  /** The exact condition: every answer to a credential is a scan of its own, over all runs, if and only if it is alone. */
  lemma AnswersOwnIff(c: Credential)
    ensures (forall calls, db, now :: OwnScan(calls, db, c, now)) <==> Alone(c)
  {
    hide OwnScan, Alone, CacheKey;
    if Alone(c) {
      forall calls, db, now
        ensures OwnScan(calls, db, c, now)
      {
        AnswersAreRecentScans(calls, db, c, now);
      }
    } else {
      var d := Partner(c);
      WrongAnswer(c, d, 0);
    }
  }

  // ---- the same for the credentials that are really looked up ----

  /** A credential as Authenticate looks it up: trimmed and not blank. */
  predicate Asked(c: Credential) {
    match c
    case ByKey(k) => IsTrimmed(k) && |k| > 0
    case ByPassword(u, _) => IsTrimmed(u) && |u| > 0
  }

  lemma TrimmedIsAsked(c: Credential)
    ensures !Blank(Trimmed(c)) ==> Asked(Trimmed(c))
  {
    hide Trim;
    match c
    case ByKey(k) => TrimTrims(k);
    case ByPassword(u, _) => TrimTrims(u);
  }

  ghost predicate AllAsked(calls: seq<Call>) {
    forall i :: 0 <= i < |calls| && calls[i].LookUp? ==> Asked(calls[i].credential)
  }

  /** A NUL that can be taken for the separator after a trimmed name. */
  predicate Separates(s: string, i: nat) {
    i < |s| && s[i] == '\0' && (i > 0 ==> !IsSpace(s[i - 1]))
  }

  ghost predicate HasSeparator(s: string, from: nat) {
    exists i: nat :: from <= i && Separates(s, i)
  }

  /** No other credential that can be looked up has the cache key of this one. */
  ghost predicate AskedAlone(c: Credential) {
    match c
    case ByKey(k) => !HasSeparator(k, 0)
    case ByPassword(u, p) =>
      && !HasSeparator(u, 1) && !HasSeparator(p, 0)
      && !(StartsWith(u, "k:") && IsTrimmed(u[2..] + "\0" + p))
  }

  lemma TrimmedEnds(a: string, b: string)
    requires a != [] && b != []
    ensures IsTrimmed(a + b) <==> !IsSpace(a[0]) && !IsSpace(b[|b| - 1])
  {
    assert (a + b)[0] == a[0] && (a + b)[|a + b| - 1] == b[|b| - 1];
  }

  lemma AskedPartner(c: Credential) returns (d: Credential)
    requires Asked(c) && !AskedAlone(c)
    ensures Asked(d) && d != c && CacheKey(d) == CacheKey(c) && (d.ByKey? ==> c.ByPassword?)
  {
    match c
    case ByKey(k) =>
      var i: nat :| Separates(k, i);
      CutAt(k, i);
      d := ByPassword("k:" + k[..i], k[i + 1..]);
      assert "k:" + (k[..i] + "\0" + k[i + 1..]) == "k:" + k[..i] + "\0" + k[i + 1..];
    case ByPassword(u, p) =>
      if HasSeparator(u, 1) {
        var i: nat :| 1 <= i && Separates(u, i);
        CutAt(u, i);
        d := ByPassword(u[..i], u[i + 1..] + "\0" + p);
        assert u[..i] + "\0" + (u[i + 1..] + "\0" + p) == u[..i] + "\0" + u[i + 1..] + "\0" + p;
      } else if HasSeparator(p, 0) {
        var i: nat :| Separates(p, i);
        CutAt(p, i);
        d := ByPassword(u + "\0" + p[..i], p[i + 1..]);
        assert u + "\0" + p[..i] + "\0" + p[i + 1..] == u + "\0" + (p[..i] + "\0" + p[i + 1..]);
        assert u + "\0" + p[..i] == u + ("\0" + p[..i]);
        TrimmedEnds(u, "\0" + p[..i]);
      } else {
        d := ByKey(u[2..] + "\0" + p);
        assert u == "k:" + u[2..];
        assert "k:" + (u[2..] + "\0" + p) == "k:" + u[2..] + "\0" + p;
      }
  }

  /** Where another name of the same entry ends, its separator is a NUL of this name or password. */
  lemma OtherSplit(u: string, p: string, v: string, q: string)
    requires u + "\0" + p == v + "\0" + q && IsTrimmed(v) && |v| > 0
    ensures |v| < |u| ==> Separates(u, |v|)
    ensures |v| > |u| ==> Separates(p, |v| - |u| - 1)
    ensures |v| == |u| ==> u == v && p == q
  {
    var s := u + "\0" + p;
    assert s[|v|] == '\0' && s[|v| - 1] == v[|v| - 1];
    assert forall i :: 0 <= i < |u| ==> s[i] == u[i];
    assert forall i :: 0 <= i < |p| ==> s[|u| + 1 + i] == p[i];
    assert s[..|u|] == u && s[|u| + 1..] == p && s[..|v|] == v && s[|v| + 1..] == q;
  }

  lemma KeyOfName(k: string, u: string, p: string)
    requires "k:" + k == u + "\0" + p
    ensures StartsWith(u, "k:") && k == u[2..] + "\0" + p
  {
    var s := "k:" + k;
    assert s[0] == 'k' && s[1] == ':' && (u + "\0" + p)[|u|] == '\0';
    assert |u| >= 2;
    BeginsAsKey(u);
    assert s[2..] == k && (u + "\0" + p)[2..] == u[2..] + "\0" + p;
  }

  lemma SplitOfKey(k: string, v: string, q: string)
    requires "k:" + k == v + "\0" + q && IsTrimmed(v)
    ensures |v| >= 2 && Separates(k, |v| - 2)
  {
    KeyOfName(k, v, q);
    assert k[|v| - 2] == '\0';
    if |v| > 2 {
      assert k[|v| - 3] == v[|v| - 1];
    }
  }

  lemma AskedAloneOnly(c: Credential, d: Credential)
    requires AskedAlone(c) && Asked(d) && CacheKey(d) == CacheKey(c)
    ensures d == c
  {
    match (c, d)
    case (ByPassword(u, p), ByPassword(v, q)) => OtherSplit(u, p, v, q);
    case (ByKey(k), ByKey(l)) => assert ("k:" + k)[2..] == k && ("k:" + l)[2..] == l;
    case (ByKey(k), ByPassword(v, q)) => SplitOfKey(k, v, q);
    case (ByPassword(u, p), ByKey(l)) => KeyOfName(l, u, p);
  }

  lemma AskedAnswers(calls: seq<Call>, db: Database, c: Credential, now: int)
    requires AskedAlone(c) && AllAsked(calls)
    ensures OwnScan(calls, db, c, now)
  {
    hide OwnScan, AskedAlone, CacheKey, Asked;
    forall i | 0 <= i < |calls| && calls[i].LookUp? && CacheKey(calls[i].credential) == CacheKey(c)
      ensures calls[i].credential == c
    {
      AskedAloneOnly(c, calls[i].credential);
    }
    OwnScanIfOnly(calls, db, c, now);
  }

  /**
   The exact condition for what Authenticate looks up: over all runs of trimmed,
   non-blank look-ups, every answer to a credential is a scan of its own if and
   only if none of its NULs follows a character that can end a name, and it is
   not a name k:... whose entry reads as an API key.
   */
  lemma AskedAnswersOwnIff(c: Credential)
    requires Asked(c)
    ensures (forall calls, db, now :: AllAsked(calls) ==> OwnScan(calls, db, c, now)) <==> AskedAlone(c)
  {
    hide OwnScan, AskedAlone, CacheKey;
    if AskedAlone(c) {
      forall calls, db, now | AllAsked(calls)
        ensures OwnScan(calls, db, c, now)
      {
        AskedAnswers(calls, db, c, now);
      }
    } else {
      var d := AskedPartner(c);
      WrongAnswer(c, d, 0);
      assert AllAsked([LookUp(Only(d), d, 0)]);
    }
  }

  /** Right after a rotation that evicted, an API key is answered by a fresh scan. */
  lemma FreshAfterRotate(cache: map<string, Cached>, db: Database, apiKey: string, now: int)
    ensures Answer(Evicted(cache), db, ByKey(apiKey), now) == Scan(db, ByKey(apiKey))
  {
    assert StartsWith("k:" + apiKey, "k:");
  }

  /** A scan's answer names a readable tenant and a matching supplier of it. */
  lemma {:induction false} ScanSource(db: Database, c: Credential) returns (i: nat, j: nat)
    requires Scan(db, c).Some?
    ensures i < |db| && Readable(db[i]) && j < |db[i].suppliers| && Matches(db[i].suppliers[j], c)
    ensures var t, s := db[i], db[i].suppliers[j];
            Scan(db, c).value == AuthResult(t.id, t.schemaName, s.id, s.username)
  {
    if Readable(db[0]) && FirstMatch(db[0].suppliers, c).Some? {
      i := 0;
      j := FirstMatchAt(db[0].suppliers, c);
    } else {
      i, j := ScanSource(db[1..], c);
      i := i + 1;
    }
  }

  lemma {:induction false} FirstMatchAt(rows: seq<Supplier>, c: Credential) returns (j: nat)
    requires FirstMatch(rows, c).Some?
    ensures j < |rows| && Matches(rows[j], c) && FirstMatch(rows, c).value == rows[j]
  {
    if Matches(rows[0], c) {
      j := 0;
    } else {
      j := FirstMatchAt(rows[1..], c);
      j := j + 1;
    }
  }

  /** Revocation is immediate: no other key is answered with the rotated supplier. */
  lemma OldKeyRevoked(cache: map<string, Cached>, db: Database, schemaName: string, id: int,
                      newKey: string, oldKey: string, now: int)
    requires oldKey != newKey
    ensures var a := Answer(Evicted(cache), Rotated(db, schemaName, id, newKey), ByKey(oldKey), now);
            a.Some? ==> a.value.schemaName != schemaName || a.value.supplierId != id
  {
    hide Evicted, Answer, Scan;
    var after := Rotated(db, schemaName, id, newKey);
    FreshAfterRotate(cache, after, oldKey, now);
    if Scan(after, ByKey(oldKey)).Some? {
      var i, j := ScanSource(after, ByKey(oldKey));
      var s := after[i].suppliers[j];
      if after[i].schemaName == schemaName && s.id == id {
        RotatedRow(db, schemaName, id, newKey, i, j);
      }
    }
  }

  lemma RotatedRow(db: Database, schemaName: string, id: int, newKey: string, i: nat, j: nat)
    requires i < |db| && j < |Rotated(db, schemaName, id, newKey)[i].suppliers|
    ensures var t := Rotated(db, schemaName, id, newKey)[i];
            var s := t.suppliers[j];
            t.schemaName == schemaName && Readable(t) && s.id == id && !s.deleted ==> s.apiKey == Some(newKey)
  {
    if j < |db[i].suppliers| && db[i].suppliers[j].id == id && !db[i].suppliers[j].deleted
       && db[i].schemaName == schemaName && !db[i].broken {
      assert Rotates(db[i], schemaName, id);
    }
  }

  // ---- pruning ----

  /** The clock at each look-up does not go back. */
  ghost predicate Monotone(calls: seq<Call>) {
    forall i, j :: 0 <= i <= j < |calls| && calls[i].LookUp? && calls[j].LookUp? ==> calls[i].now <= calls[j].now
  }

  /** Both caches hold the same live entries at time t, hence ever after. */
  ghost predicate SameLive(a: map<string, Cached>, b: map<string, Cached>, t: int) {
    forall k :: Fresh(a, k, t) == Fresh(b, k, t)
  }

  lemma SameLiveLater(a: map<string, Cached>, b: map<string, Cached>, t: int, now: int)
    requires SameLive(a, b, t) && t <= now
    ensures SameLive(a, b, now)
  {
    forall k ensures Fresh(a, k, now) == Fresh(b, k, now) {
      assert Fresh(a, k, t) == Fresh(b, k, t);
    }
  }

  lemma LookUpKeeps(a: map<string, Cached>, b: map<string, Cached>, db: Database, c: Credential, now: int)
    requires SameLive(a, b, now)
    ensures SameLive(After(a, db, c, now, true), After(b, db, c, now, false), now)
  {
    var x, y := After(a, db, c, now, true), After(b, db, c, now, false);
    assert Fresh(a, CacheKey(c), now) == Fresh(b, CacheKey(c), now);
    forall k ensures Fresh(x, k, now) == Fresh(y, k, now) {
      assert Fresh(a, k, now) == Fresh(b, k, now);
    }
  }

  lemma {:induction false} PruningKeepsLive(calls: seq<Call>, now: int)
    requires Monotone(calls)
    requires forall i :: 0 <= i < |calls| && calls[i].LookUp? ==> calls[i].now <= now
    ensures SameLive(CacheAfter(calls, true), CacheAfter(calls, false), now)
    decreases |calls|
  {
    if calls != [] {
      var before, call := calls[..|calls| - 1], calls[|calls| - 1];
      match call
      case LookUp(db, c, t) =>
        PruningKeepsLive(before, t);
        LookUpKeeps(CacheAfter(before, true), CacheAfter(before, false), db, c, t);
        SameLiveLater(CacheAfter(calls, true), CacheAfter(calls, false), t, now);
      case Evict =>
        PruningKeepsLive(before, now);
        forall k ensures Fresh(CacheAfter(calls, true), k, now) == Fresh(CacheAfter(calls, false), k, now) {
          assert Fresh(CacheAfter(before, true), k, now) == Fresh(CacheAfter(before, false), k, now);
        }
    }
  }

  /** Pruning never changes an answer, over any run whose clock does not go back. */
  lemma PruningIsInvisible(calls: seq<Call>, db: Database, c: Credential, now: int)
    requires Monotone(calls + [LookUp(db, c, now)])
    ensures Answer(CacheAfter(calls, true), db, c, now) == Answer(CacheAfter(calls, false), db, c, now)
  {
    var all := calls + [LookUp(db, c, now)];
    assert all[|calls|] == LookUp(db, c, now);
    assert forall i :: 0 <= i < |calls| ==> all[i] == calls[i];
    PruningKeepsLive(calls, now);
    assert Fresh(CacheAfter(calls, true), CacheKey(c), now) == Fresh(CacheAfter(calls, false), CacheKey(c), now);
  }
}
