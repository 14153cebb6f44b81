/** The Redis limiter: one script that checks every key and then increments every key. Times are
    milliseconds, and a key is gone once its time to live has elapsed. */
module RedisQuota {
  import opened Common
  import opened DataPlaneQuota
  import opened QuotaRuns

  datatype Entry = Entry(count: nat, expireAt: Option<int>)
  type Store = map<Key, Entry>

  predicate Present(s: Store, k: Key, now: int)
  {
    k in s && (s[k].expireAt.Some? ==> now < s[k].expireAt.value)
  }

  // Redis commands.

  function Get(s: Store, k: Key, now: int): nat
  {
    if Present(s, k, now) then s[k].count else 0
  }

  function Incr(s: Store, k: Key, now: int): Store
  {
    s[k := if Present(s, k, now) then s[k].(count := s[k].count + 1) else Entry(1, None)]
  }

  function PExpire(s: Store, k: Key, now: int, ttl: int): Store
  {
    if Present(s, k, now) then s[k := s[k].(expireAt := Some(now + ttl))] else s
  }

  function Pttl(s: Store, k: Key, now: int): int
  {
    if !Present(s, k, now) then -2 else if s[k].expireAt.None? then -1 else s[k].expireAt.value - now
  }

  /** One turn of the script's second loop: count, and start the window with the first count. */
  function Touch(s: Store, k: Key, now: int, window: int): Store
  {
    var t := Incr(s, k, now);
    if t[k].count == 1 then PExpire(t, k, now, window) else t
  }

  /** Second loop of the script. */
  function IncrAll(s: Store, keys: seq<Key>, now: int, window: int): Store
  {
    if keys == [] then s else Touch(IncrAll(s, keys[..|keys| - 1], now, window), keys[|keys| - 1], now, window)
  }

  /** Counting a key again, or another key, leaves its time to live. */
  lemma TouchKeepsTtl(s: Store, k: Key, other: Key, now: int, window: int)
    ensures var t := Touch(s, k, now, window);
            && (other in s && s[other].count >= 1 ==> other in t && t[other].count >= 1)
            && (other != k || (Present(s, k, now) && s[k].count >= 1) ==> Pttl(t, other, now) == Pttl(s, other, now))
            && k in t && t[k].count >= 1
  {
  }

  predicate BelowLimit(s: Store, keys: seq<Key>, limit: int, now: int)
  {
    forall i :: 0 <= i < |keys| ==> Get(s, keys[i], now) < limit
  }

  function Script(s: Store, keys: seq<Key>, limit: int, now: int, window: int): (bool, Store)
  {
    if BelowLimit(s, keys, limit, now) then (true, IncrAll(s, keys, now, window)) else (false, s)
  }

  function Eval(c: Config, s: Store, now: int, r: Request): (Outcome, Store)
  {
    if !Known(c, r) then (Invalid, s)
    else
      var (allowed, post) := Script(s, Keys(r), c.limits[r.operation], now, c.window);
      (if allowed then Admitted else Exceeded, post)
  }

  /** The least positive time to live of the keys, or the whole window. */
  ghost predicate LeastTtl(s: Store, keys: seq<Key>, now: int, window: int, ttl: int)
  {
    && ttl <= window && (window > 0 ==> ttl > 0)
    && (forall k :: k in keys && Pttl(s, k, now) > 0 ==> ttl <= Pttl(s, k, now))
    && (ttl == window || exists k :: k in keys && ttl == Pttl(s, k, now) && ttl > 0)
  }

  lemma LeastTtlOfNone(s: Store, now: int, window: int)
    ensures LeastTtl(s, [], now, window, window)
  {
  }

  lemma LeastTtlStep(s: Store, keys: seq<Key>, key: Key, now: int, window: int, ttl: int)
    requires LeastTtl(s, keys, now, window, ttl)
    requires forall j :: 0 <= j < |keys| ==> keys[j] in s && s[keys[j]].count >= 1
    ensures var t := Touch(s, key, now, window);
            var mine := Pttl(t, key, now);
            && (forall j :: 0 <= j < |keys| ==> keys[j] in t && t[keys[j]].count >= 1)
            && key in t && t[key].count >= 1
            && LeastTtl(t, keys + [key], now, window, if 0 < mine < ttl then mine else ttl)
  {
    hide Touch;
    var t, more := Touch(s, key, now, window), keys + [key];
    forall k | k in keys
      ensures k in t && t[k].count >= 1
      ensures k != key || Pttl(s, k, now) > 0 ==> Pttl(t, k, now) == Pttl(s, k, now)
    {
      TouchKeepsTtl(s, key, k, now, window);
    }
    TouchKeepsTtl(s, key, key, now, window);
    assert key in more && forall k :: k in keys ==> k in more;
  }

  class RedisLimiter {
    const config: Config
    var store: Store

    constructor (config: Config)
      requires ValidConfig(config)
      ensures this.config == config && store == map[]
    {
      this.config := config;
      store := map[];
    }

    /** The check loop: the first key at its limit, if any. */
    method FullKey(keys: seq<Key>, limit: int, now: int) returns (full: Option<Key>)
      ensures full.None? <==> BelowLimit(store, keys, limit, now)
      ensures full.Some? ==> full.value in keys && Get(store, full.value, now) >= limit
    {
      for i := 0 to |keys|
        invariant forall j :: 0 <= j < i ==> Get(store, keys[j], now) < limit
      {
        if Get(store, keys[i], now) >= limit { return Some(keys[i]); }
      }
      full := None;
    }

    /** One turn of the counting loop. */
    method CountKey(key: Key, now: int) returns (ttl: int)
      modifies this`store
      ensures store == Touch(old(store), key, now, config.window) && ttl == Pttl(store, key, now)
    {
      store := Incr(store, key, now);
      if store[key].count == 1 {
        store := PExpire(store, key, now, config.window);
      }
      ttl := Pttl(store, key, now);
    }

    /** The counting loop, and the least time to live it sees. */
    method CountKeys(keys: seq<Key>, now: int) returns (ttl: int)
      modifies this`store
      ensures store == IncrAll(old(store), keys, now, config.window)
      ensures LeastTtl(store, keys, now, config.window, ttl)
    {
      hide LeastTtl, Touch, Pttl;
      ttl := config.window;
      assert keys[..0] == [];
      LeastTtlOfNone(store, now, config.window);
      for i := 0 to |keys|
        invariant store == IncrAll(old(store), keys[..i], now, config.window)
        invariant LeastTtl(store, keys[..i], now, config.window, ttl)
        invariant forall j :: 0 <= j < i ==> keys[j] in store && store[keys[j]].count >= 1
      {
        assert keys[..i + 1] == keys[..i] + [keys[i]] && keys[..i + 1][..i] == keys[..i];
        LeastTtlStep(store, keys[..i], keys[i], now, config.window, ttl);
        var t := CountKey(keys[i], now);
        if 0 < t < ttl {
          ttl := t;
        }
      }
      assert keys[..|keys|] == keys;
    }

    method RunScript(keys: seq<Key>, limit: int, now: int) returns (allowed: bool, ttl: int)
      modifies this`store
      ensures (allowed, store) == Script(old(store), keys, limit, now, config.window)
      ensures allowed ==> LeastTtl(store, keys, now, config.window, ttl)
      ensures !allowed ==> exists k :: k in keys && Get(store, k, now) >= limit && ttl == Pttl(store, k, now)
    {
      var full := FullKey(keys, limit, now);
      if full.Some? {
        return false, Pttl(store, full.value, now);
      }
      ttl := CountKeys(keys, now);
      allowed := true;
    }

    method Allow(now: int, request: Request) returns (outcome: Outcome)
      modifies this`store
      ensures (outcome, store) == Eval(config, old(store), now, request)
    {
      if !ValidRequest(request) { return Invalid; }
      if request.operation !in config.limits || config.limits[request.operation] < 1 { return Invalid; }
      var allowed, _ := RunScript(Keys(request), config.limits[request.operation], now);
      outcome := if allowed then Admitted else Exceeded;
    }
  }

  // ------------------------------------------------------- refinement

  /** Every key the script leaves behind will expire. */
  ghost predicate Expiring(s: Store)
  {
    forall k :: k in s ==> s[k].count >= 1 && s[k].expireAt.Some?
  }

  /** The abstract buckets a store stands for at time `now`. */
  ghost function View(s: Store, now: int): Buckets
    requires Expiring(s)
  {
    map k | k in s && Present(s, k, now) :: Bucket(s[k].count, s[k].expireAt.value)
  }

  lemma {:induction false} IncrAllRefinesBumpAll(s: Store, keys: seq<Key>, now: int, window: int)
    requires Expiring(s) && window > 0
    ensures Expiring(IncrAll(s, keys, now, window))
    ensures View(IncrAll(s, keys, now, window), now) == BumpAll(View(s, now), keys, now + window)
  {
    if keys != [] {
      var init, k := keys[..|keys| - 1], keys[|keys| - 1];
      IncrAllRefinesBumpAll(s, init, now, window);
      var t := IncrAll(s, init, now, window);
      IncrRefinesBump(t, k, now, window);
    }
  }

  lemma IncrRefinesBump(t: Store, k: Key, now: int, window: int)
    requires Expiring(t) && window > 0
    ensures var v := Touch(t, k, now, window);
            Expiring(v) && View(v, now) == Bump(View(t, now), k, now + window)
  {
  }

  /** As time passes a store loses exactly the buckets the in-memory limiter prunes. */
  lemma ViewAges(s: Store, now: int, later: int)
    requires Expiring(s) && now <= later
    ensures View(s, later) == Live(View(s, now), later)
  {
  }

  /** The script is the abstract all-or-nothing quota on the store's view. */
  lemma ScriptRefinesDecide(s: Store, keys: seq<Key>, limit: int, now: int, window: int)
    requires Expiring(s) && window > 0 && limit >= 1
    ensures var (allowed, post) := Script(s, keys, limit, now, window);
            Expiring(post) && (allowed, View(post, now)) == Decide(View(s, now), keys, limit, now + window)
  {
    IncrAllRefinesBumpAll(s, keys, now, window);
    assert forall k :: Get(s, k, now) == CountOf(View(s, now), k);
  }

  function RedisAfter(c: Config, calls: seq<Call>): Store
  {
    if calls == [] then map[] else Eval(c, RedisAfter(c, Init(calls)), Last(calls).time, Last(calls).request).1
  }

  function RedisOutcomes(c: Config, calls: seq<Call>): (outs: seq<Outcome>)
    ensures |outs| == |calls|
  {
    if calls == [] then []
    else RedisOutcomes(c, Init(calls))
         + [Eval(c, RedisAfter(c, Init(calls)), Last(calls).time, Last(calls).request).0]
  }

  /** The last call was not turned away only because the map was full. */
  ghost predicate NotFull(c: Config, calls: seq<Call>)
    requires calls != []
  {
    var live, r := Live(After(c, Init(calls)), Last(calls).time), Last(calls).request;
    Known(c, r) && HasRoom(live, Keys(r), c.limits[r.operation]) ==> Fits(c, live, Keys(r))
  }

  ghost predicate NeverFull(c: Config, calls: seq<Call>)
  {
    calls == [] || (NeverFull(c, Init(calls)) && NotFull(c, calls))
  }

  /** The two limiters hold the same live buckets at every later time. */
  ghost predicate SameView(b: Buckets, s: Store, now: int)
  {
    Expiring(s) && Live(b, now) == View(s, now)
  }

  lemma SameViewAges(b: Buckets, s: Store, now: int, later: int)
    requires SameView(b, s, now) && now <= later
    ensures SameView(b, s, later)
  {
    ViewAges(s, now, later);
    assert Live(Live(b, now), later) == Live(b, later);
  }

  lemma OneCall(c: Config, b: Buckets, s: Store, now: int, r: Request)
    requires ValidConfig(c) && SameView(b, s, now)
    ensures var m, e := Admission(c, b, now, r), Eval(c, s, now, r);
            var live := Live(b, now);
            var full := Known(c, r) && HasRoom(live, Keys(r), c.limits[r.operation]) && !Fits(c, live, Keys(r));
            && (m.0 == e.0 <==> !full)
            && (!full ==> SameView(m.1, e.1, now))
  {
    hide Keys, Fits, HasRoom, BelowLimit;
    if Known(c, r) {
      var keys := Keys(r);
      ScriptRefinesDecide(s, keys, c.limits[r.operation], now, c.window);
      KeysAreDistinct(r);
      LiveAfterBump(b, keys, now, c.window);
      assert Live(Live(b, now), now) == Live(b, now);
    }
  }

  lemma LiveAfterBump(b: Buckets, keys: seq<Key>, now: int, window: int)
    requires Distinct(keys) && window > 0
    ensures var post := BumpAll(Live(b, now), keys, now + window); Live(post, now) == post
  {
    var live := Live(b, now);
    var post := BumpAll(live, keys, now + window);
    forall k | k in post
      ensures now < post[k].resetAt
    {
      BumpAllAt(live, keys, now + window, k);
    }
  }

  /** The two limiters make the same decisions on a sequence of timed calls exactly when the in-memory
      map never has to turn a call away for lack of entries. */
  lemma {:induction false} LimitersAgreeExactly(c: Config, calls: seq<Call>)
    requires ValidConfig(c) && Timed(calls)
    ensures Outcomes(c, calls) == RedisOutcomes(c, calls) <==> NeverFull(c, calls)
    ensures NeverFull(c, calls) && calls != [] ==> SameView(After(c, calls), RedisAfter(c, calls), Last(calls).time)
    decreases |calls|
  {
    if calls != [] {
      var init, now, r := Init(calls), Last(calls).time, Last(calls).request;
      assert Timed(init);
      LimitersAgreeExactly(c, init);
      var b, s := After(c, init), RedisAfter(c, init);
      OutcomesExtend(c, calls);
      if NeverFull(c, init) {
        if init != [] {
          SameViewAges(b, s, Last(init).time, now);
        } else {
          assert Live(b, now) == View(s, now);
        }
        hide Admission, Eval;
        OneCall(c, b, s, now, r);
      }
    }
  }

  lemma OutcomesExtend(c: Config, calls: seq<Call>)
    requires calls != []
    ensures Outcomes(c, calls) == RedisOutcomes(c, calls) <==>
            && Outcomes(c, Init(calls)) == RedisOutcomes(c, Init(calls))
            && Admission(c, After(c, Init(calls)), Last(calls).time, Last(calls).request).0
               == Eval(c, RedisAfter(c, Init(calls)), Last(calls).time, Last(calls).request).0
  {
    hide Admission, Eval;
    var m, e, n := Outcomes(c, calls), RedisOutcomes(c, calls), |calls| - 1;
    assert m[..n] == Outcomes(c, Init(calls)) && e[..n] == RedisOutcomes(c, Init(calls));
    assert m == m[..n] + [m[n]] && e == e[..n] + [e[n]];
  }

  // -------------------------------------------------------- difference

  function RequestOf(id: string): Request
  {
    Request("run.create", id, id, id, id, id)
  }

  const FIRST := "00000000-0000-0000-0000-000000000000"
  const SECOND_ID := "11111111-1111-1111-1111-111111111111"

  lemma Uuids()
    ensures IsUuid(FIRST) && IsUuid(SECOND_ID)
  {
  }

  /** Requests without a common id share no bucket. */
  lemma DisjointKeys(a: string, b: string, i: nat, j: nat)
    requires |a| == |b| && a != b && i < 4 && j < 4
    ensures Keys(RequestOf(a))[i] != Keys(RequestOf(b))[j]
  {
    var k, l := Keys(RequestOf(a))[i], Keys(RequestOf(b))[j];
    if |k| == |l| {
      assert k[|k| - |a|..] == a && l[|l| - |b|..] == b;
    }
  }

  lemma FirstIsAdmitted(c: Config, r: Request, now: int)
    requires ValidConfig(c) && Known(c, r)
    ensures Admission(c, map[], now, r) == (Admitted, BumpAll(map[], Keys(r), now + c.window))
    ensures |BumpAll(map[], Keys(r), now + c.window)| == 4
  {
    hide Keys, ValidRequest;
    assert Live(map[], now) == map[];
    NewKeysOfNone(Keys(r));
    KeysAreDistinct(r);
    BumpAllSize(map[], Keys(r), now + c.window);
  }

  lemma {:induction false} NewKeysOfNone(keys: seq<Key>)
    ensures NewKeys(map[], keys) == |keys|
  {
    if keys != [] {
      NewKeysOfNone(keys[..|keys| - 1]);
    }
  }

  lemma {:induction false} NewKeysAll(b: Buckets, keys: seq<Key>)
    requires forall i :: 0 <= i < |keys| ==> keys[i] !in b
    ensures NewKeys(b, keys) == |keys|
  {
    if keys != [] {
      NewKeysAll(b, keys[..|keys| - 1]);
    }
  }

  /** A full map turns a call away although its own buckets have room. */
  lemma FullMapRefuses(c: Config, b: Buckets, now: int, r: Request)
    requires Known(c, r) && Live(b, now) == b && |b| + 4 > c.maxEntries
    requires forall i :: 0 <= i < 4 ==> Keys(r)[i] !in b
    ensures HasRoom(Live(b, now), Keys(r), c.limits[r.operation]) && !Fits(c, Live(b, now), Keys(r))
  {
    hide Keys, ValidRequest;
    NewKeysAll(b, Keys(r));
  }

  /** With room for four entries only, a second caller inside the first one's window is turned away in memory and
      admitted by Redis. */
  lemma SecondCallerDiffers(c: Config, x: Request, y: Request)
    requires ValidConfig(c) && c.window > 1 && c.maxEntries == 4 && Known(c, x) && Known(c, y)
    requires forall i, j :: 0 <= i < 4 && 0 <= j < 4 ==> Keys(x)[i] != Keys(y)[j]
    ensures var calls := [Call(0, x), Call(1, y)];
            Timed(calls) && Outcomes(c, calls) != RedisOutcomes(c, calls)
  {
    hide Keys, ValidRequest, ValidConfig, HasRoom, Fits, Admission, Outcomes, RedisOutcomes;
    var calls := [Call(0, x), Call(1, y)];
    FirstIsAdmitted(c, x, 0);
    SecondIsTurnedAway(c, x, y);
    AfterFirst(c, Call(0, x), Call(1, y));
    assert !NotFull(c, calls);
    LimitersAgreeExactly(c, calls);
  }

  lemma AfterFirst(c: Config, x: Call, y: Call)
    ensures Init([x, y]) == [x] && Last([x, y]) == y
    ensures After(c, [x]) == Admission(c, map[], x.time, x.request).1
  {
    hide Admission;
    assert Init([x]) == [];
  }

  /** Such a pair of callers exists. */
  lemma LimitersCanDiffer()
    ensures var c := Config(60_000, 4, map["run.create" := 30]);
            var calls := [Call(0, RequestOf(FIRST)), Call(1, RequestOf(SECOND_ID))];
            ValidConfig(c) && Timed(calls) && Outcomes(c, calls) != RedisOutcomes(c, calls)
  {
    hide IsUuid, Keys, Timed, Outcomes, RedisOutcomes;
    var c := Config(60_000, 4, map["run.create" := 30]);
    assert "run.create" in c.limits;
    Uuids();
    assert FIRST[0] != SECOND_ID[0];
    forall i, j | 0 <= i < 4 && 0 <= j < 4
      ensures Keys(RequestOf(FIRST))[i] != Keys(RequestOf(SECOND_ID))[j]
    {
      DisjointKeys(FIRST, SECOND_ID, i, j);
    }
    SecondCallerDiffers(c, RequestOf(FIRST), RequestOf(SECOND_ID));
  }

  lemma SecondIsTurnedAway(c: Config, x: Request, y: Request)
    requires c.window > 1 && c.maxEntries == 4 && Known(c, y)
    requires forall i, j :: 0 <= i < 4 && 0 <= j < 4 ==> Keys(x)[i] != Keys(y)[j]
    requires |BumpAll(map[], Keys(x), c.window)| == 4
    ensures var live := Live(BumpAll(map[], Keys(x), c.window), 1);
            HasRoom(live, Keys(y), c.limits[y.operation]) && !Fits(c, live, Keys(y))
  {
    hide Keys, ValidRequest, HasRoom, Fits;
    var b := BumpAll(map[], Keys(x), c.window);
    KeysAreDistinct(x);
    forall k
      ensures k in b <==> k in Keys(x)
      ensures k in b ==> b[k] == Bucket(1, c.window)
    {
      BumpAllAt(map[], Keys(x), c.window, k);
    }
    assert Live(b, 1) == b;
    FullMapRefuses(c, b, 1, y);
  }

  // ------------------------------------------------------ sliding bound

  /** Times of the calls of an operation the Redis limiter admitted for one workspace, client, agent or subject. */
  function RedisTimes(c: Config, calls: seq<Call>, op: string, dim: Dimension, id: string): seq<int>
  {
    if calls == [] then []
    else
      var rest, x := RedisTimes(c, Init(calls), op, dim, id), Last(calls);
      if && RedisOutcomes(c, calls)[|calls| - 1] == Admitted
         && x.request.operation == op && IdOf(x.request, dim) == id
      then rest + [x.time] else rest
  }

  /** The script knows no MaxEntries. */
  lemma {:induction false} EntriesDoNotMatter(c: Config, calls: seq<Call>, entries: int)
    ensures RedisAfter(c, calls) == RedisAfter(c.(maxEntries := entries), calls)
    ensures RedisOutcomes(c, calls) == RedisOutcomes(c.(maxEntries := entries), calls)
    decreases |calls|
  {
    hide Script;
    if calls != [] {
      EntriesDoNotMatter(c, Init(calls), entries);
    }
  }

  lemma {:induction false} NewKeysAtMost(b: Buckets, keys: seq<Key>)
    ensures NewKeys(b, keys) <= |keys|
  {
    if keys != [] {
      NewKeysAtMost(b, keys[..|keys| - 1]);
    }
  }

  lemma {:induction false} FourPerCall(c: Config, calls: seq<Call>)
    ensures |After(c, calls)| <= 4 * |calls|
    decreases |calls|
  {
    if calls != [] {
      FourPerCall(c, Init(calls));
      var b, now, r := After(c, Init(calls)), Last(calls).time, Last(calls).request;
      LiveIsSmaller(b, now);
      KeysAreDistinct(r);
      assert |Keys(r)| == 4;
      hide Keys, HasRoom, Fits;
      BumpAllSize(Live(b, now), Keys(r), now + c.window);
      NewKeysAtMost(Live(b, now), Keys(r));
    }
  }

  lemma {:induction false} RoomForAll(c: Config, calls: seq<Call>)
    requires c.maxEntries >= 4 * |calls|
    ensures NeverFull(c, calls)
    decreases |calls|
  {
    if calls != [] {
      RoomForAll(c, Init(calls));
      var b, now, r := After(c, Init(calls)), Last(calls).time, Last(calls).request;
      FourPerCall(c, Init(calls));
      LiveIsSmaller(b, now);
      assert |Keys(r)| == 4;
      hide Keys, HasRoom;
      NewKeysAtMost(Live(b, now), Keys(r));
    }
  }

  lemma {:induction false} SameTimes(c: Config, calls: seq<Call>, op: string, dim: Dimension, id: string)
    requires Outcomes(c, calls) == RedisOutcomes(c, calls)
    ensures RedisTimes(c, calls, op, dim, id) == AdmittedTimes(c, calls, op, dim, id)
    decreases |calls|
  {
    hide Admission, Eval, Keys;
    if calls != [] {
      OutcomesExtend(c, calls);
      SameTimes(c, Init(calls), op, dim, id);
    }
  }

  lemma {:induction false} TimesOfEntries(
      c: Config, calls: seq<Call>, op: string, dim: Dimension, id: string, entries: int)
    ensures RedisTimes(c, calls, op, dim, id) == RedisTimes(c.(maxEntries := entries), calls, op, dim, id)
    decreases |calls|
  {
    hide Eval, Keys;
    EntriesDoNotMatter(c, calls, entries);
    if calls != [] {
      TimesOfEntries(c, Init(calls), op, dim, id, entries);
    }
  }

  /** The same limiter with a map that never fills up during the calls. */
  function Roomy(c: Config, calls: seq<Call>): Config
  {
    c.(maxEntries := 4 * |calls| + 4)
  }

  lemma RoomyAgrees(c: Config, calls: seq<Call>, op: string, dim: Dimension, id: string)
    requires ValidConfig(c) && Timed(calls)
    ensures ValidConfig(Roomy(c, calls)) && NeverFull(Roomy(c, calls), calls)
    ensures RedisOutcomes(c, calls) == Outcomes(Roomy(c, calls), calls)
    ensures RedisTimes(c, calls, op, dim, id) == AdmittedTimes(Roomy(c, calls), calls, op, dim, id)
  {
    var big := Roomy(c, calls);
    hide Timed, Outcomes, RedisOutcomes, RedisTimes, NeverFull;
    RoomForAll(big, calls);
    LimitersAgreeExactly(big, calls);
    EntriesDoNotMatter(c, calls, big.maxEntries);
    SameTimes(big, calls, op, dim, id);
    TimesOfEntries(c, calls, op, dim, id, big.maxEntries);
  }

  /** The same bound for Redis, whatever MaxEntries says: any half-open interval of one window length admits at most
      2*limit - 1 calls of an operation for one workspace, client, agent or subject. */
  lemma RedisSlidingBound(c: Config, calls: seq<Call>, op: string, dim: Dimension, id: string, from: int)
    requires ValidConfig(c) && Timed(calls) && op in c.limits
    ensures CountIn(RedisTimes(c, calls, op, dim, id), from, from + c.window) <= 2 * c.limits[op] - 1
  {
    hide Timed, Outcomes, RedisOutcomes, RedisTimes, NeverFull, CountIn, AdmittedTimes, ValidConfig;
    RoomyAgrees(c, calls, op, dim, id);
    SlidingBound(Roomy(c, calls), calls, op, dim, id, from);
  }

  /** Fewer calls admitted by Redis than the limit within the last window length, for each of the four ids. */
  ghost predicate BelowRedisLimits(c: Config, calls: seq<Call>, now: int, r: Request)
    requires Known(c, r)
  {
    forall dim :: CountIn(RedisTimes(c, calls, r.operation, dim, IdOf(r, dim)), now - c.window + 1, now + 1)
                  < c.limits[r.operation]
  }

  /** And nobody is refused early there, either. */
  lemma RedisNeverRefusesEarly(c: Config, calls: seq<Call>, x: Call)
    requires ValidConfig(c) && Timed(calls + [x]) && Known(c, x.request)
    requires BelowRedisLimits(c, calls, x.time, x.request)
    ensures RedisOutcomes(c, calls + [x])[|calls|] == Admitted
  {
    var all, r := calls + [x], x.request;
    var big := Roomy(c, all);
    assert Timed(calls) by { assert forall i :: 0 <= i < |calls| ==> calls[i] == all[i]; }
    assert Init(all) == calls && Last(all) == x;
    RoomyAgrees(c, all, r.operation, ByWorkspace, r.workspace);
    assert NotFull(big, all) && NeverFull(big, calls);
    LimitersAgreeExactly(big, calls);
    forall dim
      ensures CountIn(AdmittedTimes(big, calls, r.operation, dim, IdOf(r, dim)), x.time - c.window + 1, x.time + 1)
              < c.limits[r.operation]
    {
      SameTimes(big, calls, r.operation, dim, IdOf(r, dim));
      TimesOfEntries(c, calls, r.operation, dim, IdOf(r, dim), big.maxEntries);
    }
    assert BelowLimits(big, calls, x.time, r);
    EarlyNotRefusedWhenRoomy(big, calls, x);
  }

  lemma EarlyNotRefusedWhenRoomy(c: Config, calls: seq<Call>, x: Call)
    requires ValidConfig(c) && Timed(calls + [x]) && Known(c, x.request) && BelowLimits(c, calls, x.time, x.request)
    requires NotFull(c, calls + [x])
    ensures Outcomes(c, calls + [x])[|calls|] == Admitted
  {
    hide BelowLimits, Outcomes, Keys, Fits;
    assert Init(calls + [x]) == calls && Last(calls + [x]) == x;
    NeverRefusedEarly(c, calls, x);
    assert Timed(calls) by { assert forall i :: 0 <= i < |calls| ==> calls[i] == (calls + [x])[i]; }
    assert calls != [] ==> Last(calls).time <= x.time by {
      assert calls != [] ==> (calls + [x])[|calls| - 1] == Last(calls) && (calls + [x])[|calls|] == x;
    }
    EveryKeyHasRoom(c, calls, x);
  }
}
