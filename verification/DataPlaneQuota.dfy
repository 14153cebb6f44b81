/** The data-plane quota: a fixed-window limiter over four dimensions with
    all-or-nothing admission, in memory and as a Redis script. */
module DataPlaneQuota {
  import opened Common

  datatype Request = Request(
    operation: string, workspace: string, client: string, agent: string, principal: string, subject: string)

  /** A UUID in its canonical lower-case form. */
  predicate IsUuid(s: string)
  {
    && |s| == 36
    && forall i :: 0 <= i < |s| ==>
         if i == 8 || i == 13 || i == 18 || i == 23 then s[i] == '-' else '0' <= s[i] <= '9' || 'a' <= s[i] <= 'f'
  }

  predicate IsHex(c: char)
  {
    48 <= c as int <= 57 || 97 <= c as int <= 102
  }

  predicate AllHex(s: string)
  {
    forall i :: 0 <= i < |s| ==> IsHex(s[i])
  }

  /** Five groups of lower-case hexadecimal digits between hyphens: 8, 4, 4, 4 and 12. */
  lemma UuidExactly(s: string)
    ensures IsUuid(s) <==>
            && |s| == 36 && s[8] == s[13] == s[18] == s[23] == '-'
            && AllHex(s[..8]) && AllHex(s[9..13]) && AllHex(s[14..18]) && AllHex(s[19..23]) && AllHex(s[24..])
  {
    if |s| == 36 {
      assert AllHex(s[..8]) <==> forall i :: 0 <= i < 8 ==> IsHex(s[i]);
      HexPart(s, 9, 13);
      HexPart(s, 14, 18);
      HexPart(s, 19, 23);
      HexPart(s, 24, 36);
    }
  }

  lemma HexPart(s: string, from: nat, to: nat)
    requires from <= to <= |s|
    ensures AllHex(s[from..to]) <==> forall i :: from <= i < to ==> IsHex(s[i])
  {
    assert forall i :: from <= i < to ==> s[i] == s[from..to][i - from];
  }

  predicate ValidRequest(r: Request)
  {
    IsUuid(r.workspace) && IsUuid(r.client) && IsUuid(r.agent) && IsUuid(r.principal) && IsUuid(r.subject)
  }

  datatype Config = Config(window: int, maxEntries: int, limits: map<string, int>)

  /** Operations are fixed names without a NUL. */
  predicate ValidConfig(c: Config)
  {
    && c.window > 0 && c.maxEntries >= 4 && c.limits.Keys != {}
    && forall op :: op in c.limits ==> c.limits[op] >= 1 && '\0' !in op
  }

  type Key = string

  function Prefix(operation: string): string
  {
    operation + "\0"
  }

  function Keys(r: Request): (keys: seq<Key>)
    ensures |keys| == 4
  {
    [ Prefix(r.operation) + "workspace\0" + r.workspace,
      Prefix(r.operation) + "client\0" + r.client,
      Prefix(r.operation) + "agent\0" + r.agent,
      Prefix(r.operation) + "subject\0" + r.subject ]
  }

  /** The four dimensions of one request never share a bucket. */
  lemma KeysAreDistinct(r: Request)
    ensures Distinct(Keys(r))
  {
    var n := |Prefix(r.operation)|;
    assert Keys(r)[0][n] == 'w' && Keys(r)[1][n] == 'c' && Keys(r)[2][n] == 'a' && Keys(r)[3][n] == 's';
  }

  /** What a limit is kept for. */
  datatype Dimension = ByWorkspace | ByClient | ByAgent | BySubject

  function IdOf(r: Request, dim: Dimension): string
  {
    match dim
    case ByWorkspace => r.workspace
    case ByClient => r.client
    case ByAgent => r.agent
    case BySubject => r.subject
  }

  function Slot(dim: Dimension): nat
  {
    match dim
    case ByWorkspace => 0
    case ByClient => 1
    case ByAgent => 2
    case BySubject => 3
  }

  /** Two requests share the bucket of a dimension exactly when they are for the same operation and the same
      workspace, client, agent or subject; buckets of different dimensions are never shared. */
  lemma KeysIdentify(r: Request, q: Request, dim: Dimension)
    requires '\0' !in r.operation && '\0' !in q.operation
    ensures Keys(r)[Slot(dim)] == Keys(q)[Slot(dim)] <==> r.operation == q.operation && IdOf(r, dim) == IdOf(q, dim)
    ensures Keys(q)[Slot(dim)] in Keys(r) <==> Keys(r)[Slot(dim)] == Keys(q)[Slot(dim)]
  {
    var d, k := Slot(dim), Keys(q)[Slot(dim)];
    if r.operation == q.operation {
      var n := |Prefix(r.operation)|;
      assert Keys(r)[0][n] == 'w' && Keys(r)[1][n] == 'c' && Keys(r)[2][n] == 'a' && Keys(r)[3][n] == 's';
      assert Keys(q)[0][n] == 'w' && Keys(q)[1][n] == 'c' && Keys(q)[2][n] == 'a' && Keys(q)[3][n] == 's';
      SameTail(r, q, dim);
    } else {
      forall j | 0 <= j < 4 && Keys(r)[j] == k
        ensures false
      {
        KeyNamesOperation(r, q, j, d);
      }
    }
  }

  lemma SameTail(r: Request, q: Request, dim: Dimension)
    requires r.operation == q.operation
    ensures Keys(r)[Slot(dim)] == Keys(q)[Slot(dim)] <==> IdOf(r, dim) == IdOf(q, dim)
  {
    var a, b := Keys(r)[Slot(dim)], Keys(q)[Slot(dim)];
    var n := |a| - |IdOf(r, dim)|;
    assert n == |b| - |IdOf(q, dim)|;
    assert a[n..] == IdOf(r, dim) && b[n..] == IdOf(q, dim);
  }

  /** Two requests share a bucket only for the same operation, which is written before the first NUL. */
  lemma KeyNamesOperation(r: Request, q: Request, i: nat, j: nat)
    requires '\0' !in r.operation && '\0' !in q.operation && i < 4 && j < 4 && Keys(r)[i] == Keys(q)[j]
    ensures r.operation == q.operation
  {
    var k, a, b := Keys(r)[i], r.operation, q.operation;
    assert k[..|a|] == a && k[|a|] == '\0' && k[..|b|] == b && k[|b|] == '\0';
    assert forall n :: 0 <= n < |a| ==> a[n] == k[n];
    assert forall n :: 0 <= n < |b| ==> b[n] == k[n];
  }

  // -------------------------------------------------- abstract quota

  datatype Bucket = Bucket(count: nat, resetAt: int)
  type Buckets = map<Key, Bucket>

  /** Buckets whose window is still open. */
  function Live(b: Buckets, now: int): Buckets
  {
    map k | k in b && now < b[k].resetAt :: b[k]
  }

  function CountOf(b: Buckets, k: Key): nat
  {
    if k in b then b[k].count else 0
  }

  predicate HasRoom(b: Buckets, keys: seq<Key>, limit: int)
  {
    forall i :: 0 <= i < |keys| ==> CountOf(b, keys[i]) < limit
  }

  function Bump(b: Buckets, k: Key, resetAt: int): Buckets
  {
    b[k := if k in b then b[k].(count := b[k].count + 1) else Bucket(1, resetAt)]
  }

  function BumpAll(b: Buckets, keys: seq<Key>, resetAt: int): Buckets
  {
    if keys == [] then b else Bump(BumpAll(b, keys[..|keys| - 1], resetAt), keys[|keys| - 1], resetAt)
  }

  /** Admit all four dimensions or none. */
  function Decide(live: Buckets, keys: seq<Key>, limit: int, resetAt: int): (bool, Buckets)
  {
    if HasRoom(live, keys, limit) then (true, BumpAll(live, keys, resetAt)) else (false, live)
  }

  predicate Distinct(keys: seq<Key>)
  {
    forall i, j :: 0 <= i < j < |keys| ==> keys[i] != keys[j]
  }

  lemma {:induction false} BumpAllAt(b: Buckets, keys: seq<Key>, resetAt: int, k: Key)
    requires Distinct(keys)
    ensures k in BumpAll(b, keys, resetAt) <==> k in b || k in keys
    ensures k !in keys && k in b ==> BumpAll(b, keys, resetAt)[k] == b[k]
    ensures k in keys && k !in b ==> BumpAll(b, keys, resetAt)[k] == Bucket(1, resetAt)
    ensures k in keys && k in b ==> BumpAll(b, keys, resetAt)[k] == Bucket(b[k].count + 1, b[k].resetAt)
  {
    if keys != [] {
      var init := keys[..|keys| - 1];
      assert forall i :: 0 <= i < |init| ==> init[i] == keys[i];
      BumpAllAt(b, init, resetAt, k);
      BumpAllAt(b, init, resetAt, keys[|keys| - 1]);
      assert k in keys <==> k in init || k == keys[|keys| - 1];
    }
  }

  lemma BumpNone(b: Buckets, resetAt: int)
    ensures BumpAll(b, [], resetAt) == b
  {
  }

  /** Bumping one more key opens a bucket or counts in the live one. */
  lemma BumpNext(live: Buckets, keys: seq<Key>, i: nat, now: int, resetAt: int)
    requires Distinct(keys) && i < |keys| && live == Live(live, now)
    ensures var b, key := BumpAll(live, keys[..i], resetAt), keys[i];
            && key !in keys[..i]
            && var was := if key in b && now < b[key].resetAt then b[key] else Bucket(0, resetAt);
               BumpAll(live, keys[..i + 1], resetAt) == b[key := was.(count := was.count + 1)]
  {
    assert keys[..i + 1][..i] == keys[..i];
    BumpAllAt(live, keys[..i], resetAt, keys[i]);
  }

  // ------------------------------------------------ in-memory limiter

  datatype Outcome = Admitted | Exceeded | Invalid
  datatype Decision = Decision(limit: int, remaining: int, resetAt: int, retryAfter: int)

  const NO_DECISION := Decision(0, 0, 0, 0)
  const SECOND := 1_000_000_000

  /** How many of the keys have no bucket yet. */
  function NewKeys(b: Buckets, keys: seq<Key>): nat
  {
    if keys == [] then 0
    else NewKeys(b, keys[..|keys| - 1]) + if keys[|keys| - 1] in b then 0 else 1
  }

  predicate Fits(c: Config, live: Buckets, keys: seq<Key>)
  {
    |live| + NewKeys(live, keys) <= c.maxEntries
  }

  /** A well-formed request for a configured operation. */
  predicate Known(c: Config, r: Request)
  {
    r.operation in c.limits && c.limits[r.operation] >= 1 && ValidRequest(r)
  }

  function Admission(c: Config, b: Buckets, now: int, r: Request): (Outcome, Buckets)
  {
    if !Known(c, r) then (Invalid, b)
    else
      var live := Live(b, now);
      if !HasRoom(live, Keys(r), c.limits[r.operation]) || !Fits(c, live, Keys(r)) then (Exceeded, live)
      else (Admitted, BumpAll(live, Keys(r), now + c.window))
  }

  /** A call is invalid exactly when its operation has no limit or one of its five ids is no UUID. */
  lemma InvalidExactly(c: Config, b: Buckets, now: int, r: Request)
    requires ValidConfig(c)
    ensures Admission(c, b, now, r).0 == Invalid <==>
            r.operation !in c.limits
            || exists id :: id in {r.workspace, r.client, r.agent, r.principal, r.subject} && !IsUuid(id)
  {
    hide IsUuid, Keys, BumpAll;
  }

  /** A full bucket and the answer that names it. */
  predicate Blocks(b: Bucket, d: Decision, now: int)
  {
    && b.count >= d.limit && d.resetAt == b.resetAt
    && d.retryAfter == if b.resetAt - now < SECOND then SECOND else b.resetAt - now
  }

  /** The most restrictive budget and the earliest reset of the keys, none later than `cap`. */
  ghost predicate Summarizes(b: Buckets, keys: seq<Key>, d: Decision, cap: int)
  {
    && (forall k :: k in keys ==> k in b && d.remaining <= d.limit - b[k].count && d.resetAt <= b[k].resetAt)
    && d.remaining <= d.limit - 1 && d.resetAt <= cap
    && (if keys == [] then d.remaining == d.limit - 1
        else exists k :: k in keys && k in b && d.remaining == d.limit - b[k].count)
    && (d.resetAt == cap || exists k :: k in keys && k in b && d.resetAt == b[k].resetAt)
  }

  lemma NothingToSummarize(b: Buckets, d: Decision)
    requires d.remaining == d.limit - 1
    ensures Summarizes(b, [], d, d.resetAt)
  {
  }

  lemma SummarizeOneMore(b: Buckets, keys: seq<Key>, key: Key, bucket: Bucket, d: Decision, cap: int)
    requires Summarizes(b, keys, d, cap) && key !in keys && bucket.count >= 1
    ensures var left := d.limit - bucket.count;
            var e := d.(remaining := if left < d.remaining then left else d.remaining,
                        resetAt := if bucket.resetAt < d.resetAt then bucket.resetAt else d.resetAt);
            Summarizes(b[key := bucket], keys + [key], e, cap)
  {
    var more, c := keys + [key], b[key := bucket];
    assert key in more && c[key] == bucket;
    assert forall k :: k in keys ==> k in more && c[k] == b[k];
  }

  class InMemoryQuota {
    const config: Config
    var buckets: Buckets

    constructor (config: Config)
      requires ValidConfig(config)
      ensures this.config == config && buckets == map[]
    {
      this.config := config;
      buckets := map[];
    }

    method PruneExpired(now: int)
      modifies this`buckets
      ensures buckets == Live(old(buckets), now)
    {
      var pending := buckets.Keys;
      while pending != {}
        invariant pending <= old(buckets).Keys
        invariant buckets == map k | k in old(buckets) && (k in pending || now < old(buckets)[k].resetAt)
                               :: old(buckets)[k]
        decreases pending
      {
        var key :| key in pending;
        if now >= buckets[key].resetAt {
          buckets := buckets - {key};
        }
        pending := pending - {key};
      }
    }

    method Allow(now: int, request: Request) returns (outcome: Outcome, decision: Decision)
      modifies this`buckets
      ensures (outcome, buckets) == Admission(config, old(buckets), now, request)
      ensures outcome == Exceeded ==> decision.remaining == 0 && decision.limit == config.limits[request.operation]
      ensures outcome == Exceeded ==>
                if HasRoom(buckets, Keys(request), decision.limit) then decision.retryAfter == config.window
                else exists k :: k in Keys(request) && k in buckets && Blocks(buckets[k], decision, now)
      ensures outcome == Admitted ==>
                && decision.limit == config.limits[request.operation]
                && Summarizes(buckets, Keys(request), decision, now + config.window)
    {
      if !ValidRequest(request) { return Invalid, NO_DECISION; }
      if request.operation !in config.limits || config.limits[request.operation] < 1 { return Invalid, NO_DECISION; }
      hide ValidRequest, Keys, Summarizes, BumpAll, Blocks;
      var limit := config.limits[request.operation];
      var keys := Keys(request);
      PruneExpired(now);
      var resetAt, full := CheckBuckets(now, limit, keys);
      if full.Some? { return Exceeded, full.value; }
      var newBuckets := CountNew(keys);
      if |buckets| + newBuckets > config.maxEntries {
        return Exceeded, Decision(limit, 0, resetAt, config.window);
      }
      KeysAreDistinct(request);
      decision := Increment(now, limit, keys);
      outcome := Admitted;
    }

    /** The check loop: the earliest reset so far, and a refusal if some live bucket is full. */
    method CheckBuckets(now: int, limit: int, keys: seq<Key>) returns (resetAt: int, full: Option<Decision>)
      requires buckets == Live(buckets, now) && limit >= 1
      ensures full.None? <==> HasRoom(buckets, keys, limit)
      ensures full.Some? ==>
                && full.value.limit == limit && full.value.remaining == 0
                && exists k :: k in keys && k in buckets && Blocks(buckets[k], full.value, now)
    {
      resetAt := now + config.window;
      for i := 0 to |keys|
        invariant forall j :: 0 <= j < i ==> CountOf(buckets, keys[j]) < limit
      {
        var key := keys[i];
        if key in buckets && now < buckets[key].resetAt {
          if buckets[key].resetAt < resetAt {
            resetAt := buckets[key].resetAt;
          }
          if buckets[key].count >= limit {
            var retry := buckets[key].resetAt - now;
            var refusal := Decision(limit, 0, buckets[key].resetAt, if retry < SECOND then SECOND else retry);
            assert key in keys && Blocks(buckets[key], refusal, now);
            return resetAt, Some(refusal);
          }
        }
      }
      full := None;
    }

    /** How many of the keys have no bucket yet. */
    method CountNew(keys: seq<Key>) returns (count: nat)
      ensures count == NewKeys(buckets, keys)
    {
      count := 0;
      for i := 0 to |keys|
        invariant count == NewKeys(buckets, keys[..i])
      {
        assert keys[..i + 1][..i] == keys[..i];
        if keys[i] !in buckets {
          count := count + 1;
        }
      }
      assert keys[..|keys|] == keys;
    }

    method Increment(now: int, limit: int, keys: seq<Key>) returns (decision: Decision)
      requires Distinct(keys) && buckets == Live(buckets, now)
      modifies this`buckets
      ensures buckets == BumpAll(old(buckets), keys, now + config.window)
      ensures decision.limit == limit && decision.retryAfter == 0
      ensures Summarizes(buckets, keys, decision, now + config.window)
    {
      hide Summarizes, BumpAll, Live, Distinct;
      BumpNone(buckets, now + config.window);
      decision := Decision(limit, limit - 1, now + config.window, 0);
      ghost var live := buckets;
      NothingToSummarize(buckets, decision);
      assert keys[..0] == [];
      for i := 0 to |keys|
        invariant buckets == BumpAll(live, keys[..i], now + config.window)
        invariant decision.limit == limit && decision.retryAfter == 0
        invariant Summarizes(buckets, keys[..i], decision, now + config.window)
      {
        var key := keys[i];
        assert keys[..i + 1] == keys[..i] + [key];
        BumpNext(live, keys, i, now, now + config.window);
        var bucket := if key in buckets && now < buckets[key].resetAt then buckets[key]
                      else Bucket(0, now + config.window);
        bucket := bucket.(count := bucket.count + 1);
        SummarizeOneMore(buckets, keys[..i], key, bucket, decision, now + config.window);
        buckets := buckets[key := bucket];
        if limit - bucket.count < decision.remaining {
          decision := decision.(remaining := limit - bucket.count);
        }
        if bucket.resetAt < decision.resetAt {
          decision := decision.(resetAt := bucket.resetAt);
        }
      }
      assert keys[..|keys|] == keys;
    }
  }
}
