/** What the limiter guarantees over whole sequences of timed calls. */
module QuotaRuns {
  import opened DataPlaneQuota

  datatype Call = Call(time: int, request: Request)

  ghost predicate Timed(calls: seq<Call>)
  {
    forall i, j :: 0 <= i < j < |calls| ==> calls[i].time <= calls[j].time
  }

  function Init(calls: seq<Call>): seq<Call>
    requires calls != []
  {
    calls[..|calls| - 1]
  }

  function Last(calls: seq<Call>): Call
    requires calls != []
  {
    calls[|calls| - 1]
  }

  /** The buckets after the calls, from an empty limiter. */
  function After(c: Config, calls: seq<Call>): Buckets
  {
    if calls == [] then map[] else Admission(c, After(c, Init(calls)), Last(calls).time, Last(calls).request).1
  }

  /** Whether the last call got in. */
  predicate LastAdmitted(c: Config, calls: seq<Call>)
    requires calls != []
  {
    Admission(c, After(c, Init(calls)), Last(calls).time, Last(calls).request).0 == Admitted
  }

  /** Times of the admitted calls that touched bucket `k`, in order. */
  function Times(c: Config, calls: seq<Call>, k: Key): seq<int>
  {
    if calls == [] then []
    else if LastAdmitted(c, calls) && k in Keys(Last(calls).request) then Times(c, Init(calls), k) + [Last(calls).time]
    else Times(c, Init(calls), k)
  }

  /** The decisions on the calls, in order. */
  function Outcomes(c: Config, calls: seq<Call>): (outs: seq<Outcome>)
    ensures |outs| == |calls|
  {
    if calls == [] then []
    else Outcomes(c, Init(calls)) + [Admission(c, After(c, Init(calls)), Last(calls).time, Last(calls).request).0]
  }

  // -------------------------------------------------- refused calls

  lemma LiveTwice(b: Buckets, now: int, later: int)
    requires now <= later
    ensures Live(Live(b, now), later) == Live(b, later)
  {
  }

  /** A decision depends only on the live buckets, and so do those it leaves. */
  lemma OnlyLiveMatters(c: Config, a: Buckets, b: Buckets, now: int, r: Request)
    requires Live(a, now) == Live(b, now)
    ensures Admission(c, a, now, r).0 == Admission(c, b, now, r).0
    ensures Live(Admission(c, a, now, r).1, now) == Live(Admission(c, b, now, r).1, now)
  {
    hide Keys, HasRoom, Fits, BumpAll;
  }

  lemma RefusalKeepsLive(c: Config, b: Buckets, now: int, r: Request)
    requires Admission(c, b, now, r).0 != Admitted
    ensures Live(Admission(c, b, now, r).1, now) == Live(b, now)
  {
    hide Keys, HasRoom, Fits;
    LiveTwice(b, now, now);
  }

  lemma {:induction false} WithoutRefused(c: Config, before: seq<Call>, x: Call, rest: seq<Call>)
    requires Timed(before + [x] + rest)
    requires Admission(c, After(c, before), x.time, x.request).0 != Admitted
    ensures var all := before + [x] + rest;
            && Live(After(c, all), Last(all).time) == Live(After(c, before + rest), Last(all).time)
            && Outcomes(c, all) == Outcomes(c, before + [x]) + Outcomes(c, before + rest)[|before|..]
    decreases |rest|
  {
    hide Admission, Live;
    var all := before + [x] + rest;
    if rest == [] {
      assert all == before + [x] && before + rest == before && Init(before + [x]) == before;
      RefusalKeepsLive(c, After(c, before), x.time, x.request);
    } else {
      var init, y := Init(rest), Last(rest);
      var shorter := before + [x] + init;
      assert Init(all) == shorter && Init(before + rest) == before + init && Last(all) == y == Last(before + rest);
      assert Timed(shorter) by { assert forall i :: 0 <= i < |shorter| ==> shorter[i] == all[i]; }
      WithoutRefused(c, before, x, init);
      var a, b, t := After(c, shorter), After(c, before + init), Last(shorter).time;
      assert t <= y.time by { assert shorter[|shorter| - 1] == all[|shorter| - 1] && all[|all| - 1] == y; }
      LiveTwice(a, t, y.time);
      LiveTwice(b, t, y.time);
      OnlyLiveMatters(c, a, b, y.time, y.request);
    }
  }

  /** A refused or invalid call leaves no trace: taking it out of any timed sequence changes no other decision. */
  lemma RefusedCallLeavesNoTrace(c: Config, before: seq<Call>, x: Call, rest: seq<Call>)
    requires Timed(before + [x] + rest) && Outcomes(c, before + [x])[|before|] != Admitted
    ensures var all := Outcomes(c, before + [x] + rest);
            all[..|before|] + all[|before| + 1..] == Outcomes(c, before + rest)
  {
    hide Admission;
    assert Init(before + [x]) == before && Last(before + [x]) == x;
    WithoutRefused(c, before, x, rest);
    OutcomesPrefix(c, before, rest);
    OutcomesPrefix(c, before, [x]);
    var all, short := Outcomes(c, before + [x] + rest), Outcomes(c, before + rest);
    assert all[..|before|] == Outcomes(c, before) == short[..|before|];
    assert all[|before| + 1..] == short[|before|..];
  }

  /** Later calls do not change earlier decisions. */
  lemma {:induction false} OutcomesPrefix(c: Config, before: seq<Call>, rest: seq<Call>)
    ensures Outcomes(c, before + rest)[..|before|] == Outcomes(c, before)
    decreases |rest|
  {
    hide Admission;
    if rest == [] {
      assert before + rest == before;
    } else {
      assert Init(before + rest) == before + Init(rest);
      OutcomesPrefix(c, before, Init(rest));
    }
  }

  // -------------------------------------------------- bucket invariants

  lemma {:induction false} BumpAllSize(b: Buckets, keys: seq<Key>, resetAt: int)
    requires Distinct(keys)
    ensures |BumpAll(b, keys, resetAt)| == |b| + NewKeys(b, keys)
  {
    if keys != [] {
      var init, last := keys[..|keys| - 1], keys[|keys| - 1];
      assert forall i :: 0 <= i < |init| ==> init[i] == keys[i];
      BumpAllSize(b, init, resetAt);
      BumpAllAt(b, init, resetAt, last);
      var m := BumpAll(b, init, resetAt);
      assert BumpAll(b, keys, resetAt).Keys == m.Keys + {last};
    }
  }

  lemma LiveIsSmaller(b: Buckets, now: int)
    ensures |Live(b, now)| <= |b|
  {
    var live := Live(b, now);
    assert live.Keys <= b.Keys;
    SubsetSize(live.Keys, b.Keys);
  }

  lemma {:induction false} SubsetSize(a: set<Key>, b: set<Key>)
    requires a <= b
    ensures |a| <= |b|
  {
    if x :| x in a {
      SubsetSize(a - {x}, b - {x});
    }
  }

  /** The map never outgrows its configured size, whatever the calls. */
  lemma {:induction false} NeverAboveMaxEntries(c: Config, calls: seq<Call>)
    requires ValidConfig(c)
    ensures |After(c, calls)| <= c.maxEntries
    decreases |calls|
  {
    if calls != [] {
      NeverAboveMaxEntries(c, Init(calls));
      var b, now, r := After(c, Init(calls)), Last(calls).time, Last(calls).request;
      LiveIsSmaller(b, now);
      KeysAreDistinct(r);
      BumpAllSize(Live(b, now), Keys(r), now + c.window);
    }
  }

  // ----------------------------------------------------- sliding bound

  /** Index of the first admission in the current window of bucket `k`. */
  function WindowStart(c: Config, calls: seq<Call>, k: Key): nat
  {
    if calls == [] then 0
    else if LastAdmitted(c, calls) && k in Keys(Last(calls).request)
            && k !in Live(After(c, Init(calls)), Last(calls).time) then |Times(c, Init(calls), k)|
    else WindowStart(c, Init(calls), k)
  }

  /** Admissions come in windows: at most `limit` since the current window opened, and that window
      opened at least `window` after the one before it. */
  ghost predicate Windowed(a: seq<int>, start: nat, limit: int, window: int)
  {
    && (forall i, j :: 0 <= i < j < |a| ==> a[i] <= a[j])
    && start <= |a| && |a| - start <= limit
    && (0 < start < |a| ==> a[if start < limit then 0 else start - limit] + window <= a[start])
  }

  /** Any 2*limit consecutive admissions span at least a window. */
  ghost predicate Spread(a: seq<int>, limit: int, window: int)
    requires limit >= 1
  {
    forall i :: 0 <= i && i + 2 * limit - 1 < |a| ==> a[i] + window <= a[i + 2 * limit - 1]
  }

  /** The bucket and the admissions it counts. */
  ghost predicate Tracks(b: Buckets, k: Key, a: seq<int>, start: nat, window: int, now: int)
  {
    && (forall i :: 0 <= i < |a| ==> a[i] <= now)
    && (if k in b then start < |a| && b[k] == Bucket(|a| - start, a[start] + window)
        else a == [] || (start < |a| && a[start] + window <= now))
  }

  lemma AppendKeepsSpread(a: seq<int>, start: nat, t: int, limit: int, window: int)
    requires limit >= 1 && Spread(a, limit, window)
    requires Windowed(a + [t], start, limit, window) && start < |a| + 1
    ensures Spread(a + [t], limit, window)
  {
    var b := a + [t];
    forall i | 0 <= i && i + 2 * limit - 1 < |b|
      ensures b[i] + window <= b[i + 2 * limit - 1]
    {
      if i + 2 * limit - 1 < |a| {
        assert a[i] + window <= a[i + 2 * limit - 1];
      } else {
        assert i <= start - limit;
        assert b[i] <= b[start - limit];
        assert b[start] <= b[|a|];
      }
    }
  }

  /** An admission into the window already open. */
  lemma HitOpenWindow(a: seq<int>, start: nat, now: int, limit: int, window: int)
    requires limit >= 1 && Windowed(a, start, limit, window) && Spread(a, limit, window)
    requires start < |a| && |a| - start < limit && (forall i :: 0 <= i < |a| ==> a[i] <= now)
    ensures Windowed(a + [now], start, limit, window) && Spread(a + [now], limit, window)
  {
    AppendKeepsSpread(a, start, now, limit, window);
  }

  /** An admission that opens a window, the one before having run out. */
  lemma HitNewWindow(a: seq<int>, start: nat, now: int, limit: int, window: int)
    requires limit >= 1 && Windowed(a, start, limit, window) && Spread(a, limit, window)
    requires a == [] || (start < |a| && a[start] + window <= now)
    requires forall i :: 0 <= i < |a| ==> a[i] <= now
    ensures Windowed(a + [now], |a|, limit, window) && Spread(a + [now], limit, window)
  {
    var b := a + [now];
    if a != [] {
      var j := if |a| < limit then 0 else |a| - limit;
      assert j <= start;
      assert b[j] == a[j] && a[j] <= a[start];
    }
    AppendKeepsSpread(a, |a|, now, limit, window);
  }

  /** The bucket of `k` after one more call. */
  lemma BucketStep(c: Config, b: Buckets, now: int, r: Request, k: Key)
    ensures var (out, post) := Admission(c, b, now, r);
            if out == Admitted && k in Keys(r) then
              && Known(c, r) && CountOf(Live(b, now), k) < c.limits[r.operation] && k in post
              && post[k] == if k in Live(b, now) then Bucket(b[k].count + 1, b[k].resetAt)
                            else Bucket(1, now + c.window)
            else
              && (k in post ==> k in b && post[k] == b[k])
              && (k in b && now < b[k].resetAt ==> k in post)
  {
    hide Keys, Fits;
    KeysAreDistinct(r);
    BumpAllAt(Live(b, now), Keys(r), now + c.window, k);
  }

  lemma TrackStep(c: Config, b: Buckets, now: int, last: int, r: Request, k: Key, op: string, a: seq<int>, start: nat)
    requires ValidConfig(c) && op in c.limits && last <= now
    requires k in Keys(r) && Known(c, r) ==> r.operation == op
    requires Tracks(b, k, a, start, c.window, last)
    requires Windowed(a, start, c.limits[op], c.window) && Spread(a, c.limits[op], c.window)
    ensures var (out, post) := Admission(c, b, now, r);
            var hit := out == Admitted && k in Keys(r);
            var a' := if hit then a + [now] else a;
            var start' := if hit && k !in Live(b, now) then |a| else start;
            && Tracks(post, k, a', start', c.window, now)
            && Windowed(a', start', c.limits[op], c.window) && Spread(a', c.limits[op], c.window)
  {
    BucketStep(c, b, now, r, k);
    hide Keys, Admission, BumpAll, Windowed, Spread;
    var (out, post) := Admission(c, b, now, r);
    if out == Admitted && k in Keys(r) {
      if k in Live(b, now) {
        HitOpenWindow(a, start, now, c.limits[op], c.window);
      } else {
        HitNewWindow(a, start, now, c.limits[op], c.window);
      }
    }
  }

  lemma {:induction false} BucketHistory(c: Config, calls: seq<Call>, k: Key, op: string)
    requires ValidConfig(c) && op in c.limits && Timed(calls)
    requires forall i :: 0 <= i < |calls| && k in Keys(calls[i].request) && Known(c, calls[i].request) ==>
               calls[i].request.operation == op
    ensures var a, start := Times(c, calls, k), WindowStart(c, calls, k);
            && (calls == [] ==> After(c, calls) == map[] && a == [] && start == 0)
            && (calls != [] ==> Tracks(After(c, calls), k, a, start, c.window, Last(calls).time))
            && Windowed(a, start, c.limits[op], c.window) && Spread(a, c.limits[op], c.window)
    decreases |calls|
  {
    if calls != [] {
      var init := Init(calls);
      assert Timed(init);
      BucketHistory(c, init, k, op);
      var before := if init == [] then Last(calls).time else Last(init).time;
      TrackStep(c, After(c, init), Last(calls).time, before, Last(calls).request, k, op,
                 Times(c, init, k), WindowStart(c, init, k));
    }
  }

  function CountIn(a: seq<int>, from: int, to: int): nat
  {
    if a == [] then 0 else CountIn(a[..|a| - 1], from, to) + if from <= a[|a| - 1] < to then 1 else 0
  }

  /** In a sorted sequence, n hits in an interval mean n consecutive entries inside it. */
  lemma {:induction false} HitsAreConsecutive(a: seq<int>, from: int, to: int, first: nat)
    requires forall i, j :: 0 <= i < j < |a| ==> a[i] <= a[j]
    requires first <= |a| && (forall i :: 0 <= i < first ==> a[i] < from) && (first < |a| ==> from <= a[first])
    ensures first + CountIn(a, from, to) <= |a|
    ensures CountIn(a, from, to) > 0 ==> a[first + CountIn(a, from, to) - 1] < to
    decreases |a|
  {
    if a != [] {
      var init := a[..|a| - 1];
      if first == |a| {
        HitsAreConsecutive(init, from, to, first - 1);
      } else {
        HitsAreConsecutive(init, from, to, first);
      }
    }
  }

  lemma {:induction false} FirstHit(a: seq<int>, from: int) returns (first: nat)
    ensures first <= |a| && (forall i :: 0 <= i < first ==> a[i] < from) && (first < |a| ==> from <= a[first])
  {
    first := 0;
    while first < |a| && a[first] < from
      invariant first <= |a| && forall i :: 0 <= i < first ==> a[i] < from
    {
      first := first + 1;
    }
  }

  lemma SpreadBoundsHits(a: seq<int>, limit: int, window: int, from: int)
    requires limit >= 1 && Spread(a, limit, window)
    requires forall i, j :: 0 <= i < j < |a| ==> a[i] <= a[j]
    ensures CountIn(a, from, from + window) <= 2 * limit - 1
  {
    var first := FirstHit(a, from);
    HitsAreConsecutive(a, from, from + window, first);
    var n, last := CountIn(a, from, from + window), first + 2 * limit - 1;
    assert last < |a| ==> a[first] + window <= a[last];
    assert forall i :: last <= i < |a| ==> a[last] <= a[i];
  }

  // ------------------------------------------- bounds on ids, not keys

  /** Times of the admitted calls of an operation for one workspace, client, agent or subject, in order. */
  function AdmittedTimes(c: Config, calls: seq<Call>, op: string, dim: Dimension, id: string): seq<int>
  {
    if calls == [] then []
    else
      var rest, x := AdmittedTimes(c, Init(calls), op, dim, id), Last(calls);
      if LastAdmitted(c, calls) && x.request.operation == op && IdOf(x.request, dim) == id then rest + [x.time]
      else rest
  }

  /** A request of that operation that carries the id everywhere. */
  function Sample(op: string, id: string): Request
  {
    Request(op, id, id, id, id, id)
  }

  function KeyFor(op: string, dim: Dimension, id: string): Key
  {
    Keys(Sample(op, id))[Slot(dim)]
  }

  lemma KnownHasNoNul(c: Config, r: Request)
    requires ValidConfig(c) && Known(c, r)
    ensures '\0' !in r.operation
  {
  }

  /** A known request uses the bucket exactly when it is for that operation and id. */
  lemma UsesBucket(c: Config, r: Request, op: string, dim: Dimension, id: string)
    requires ValidConfig(c) && op in c.limits && Known(c, r)
    ensures KeyFor(op, dim, id) in Keys(r) <==> r.operation == op && IdOf(r, dim) == id
    ensures r.operation == op && IdOf(r, dim) == id ==> Keys(r)[Slot(dim)] == KeyFor(op, dim, id)
  {
    KnownHasNoNul(c, r);
    KeysIdentify(r, Sample(op, id), dim);
  }

  lemma {:induction false} TimesAreOfIds(c: Config, calls: seq<Call>, op: string, dim: Dimension, id: string)
    requires ValidConfig(c) && op in c.limits
    ensures Times(c, calls, KeyFor(op, dim, id)) == AdmittedTimes(c, calls, op, dim, id)
    decreases |calls|
  {
    hide Keys, KeyFor, ValidRequest;
    if calls != [] {
      TimesAreOfIds(c, Init(calls), op, dim, id);
      if LastAdmitted(c, calls) {
        AdmittedIsKnown(c, After(c, Init(calls)), Last(calls).time, Last(calls).request);
        UsesBucket(c, Last(calls).request, op, dim, id);
      }
    }
  }

  lemma AdmittedIsKnown(c: Config, b: Buckets, now: int, r: Request)
    requires Admission(c, b, now, r).0 == Admitted
    ensures Known(c, r)
  {
  }

  lemma OneOperationPerBucket(c: Config, calls: seq<Call>, op: string, dim: Dimension, id: string)
    requires ValidConfig(c) && op in c.limits
    ensures forall i :: 0 <= i < |calls| && KeyFor(op, dim, id) in Keys(calls[i].request)
                        && Known(c, calls[i].request) ==>
              calls[i].request.operation == op
  {
    hide Keys, KeyFor, ValidRequest;
    forall i | 0 <= i < |calls| && KeyFor(op, dim, id) in Keys(calls[i].request) && Known(c, calls[i].request)
      ensures calls[i].request.operation == op
    {
      UsesBucket(c, calls[i].request, op, dim, id);
    }
  }

  /** Under a nondecreasing clock, any half-open interval of one window length admits at most 2*limit - 1 calls of an
      operation for one workspace, client, agent or subject. */
  lemma SlidingBound(c: Config, calls: seq<Call>, op: string, dim: Dimension, id: string, from: int)
    requires ValidConfig(c) && Timed(calls) && op in c.limits
    ensures CountIn(AdmittedTimes(c, calls, op, dim, id), from, from + c.window) <= 2 * c.limits[op] - 1
  {
    hide Keys, KeyFor, Known, AdmittedTimes, Times, CountIn, After, WindowStart, Tracks, Timed;
    OneOperationPerBucket(c, calls, op, dim, id);
    TimesAreOfIds(c, calls, op, dim, id);
    BucketHistory(c, calls, KeyFor(op, dim, id), op);
    SpreadBoundsHits(Times(c, calls, KeyFor(op, dim, id)), c.limits[op], c.window, from);
  }

  lemma {:induction false} TailCounts(a: seq<int>, start: nat, from: int, to: int)
    requires start <= |a| && forall i :: start <= i < |a| ==> from <= a[i] < to
    ensures CountIn(a, from, to) >= |a| - start
    decreases |a|
  {
    if start < |a| {
      TailCounts(a[..|a| - 1], start, from, to);
    }
  }

  /** A live bucket counts only calls admitted within the last window length. */
  lemma BucketCountsRecent(b: Buckets, k: Key, a: seq<int>, start: nat, limit: int, window: int, last: int, now: int)
    requires Tracks(b, k, a, start, window, last) && Windowed(a, start, limit, window) && last <= now
    ensures CountOf(Live(b, now), k) <= CountIn(a, now - window + 1, now + 1)
  {
    if k in b && now < b[k].resetAt {
      TailCounts(a, start, now - window + 1, now + 1);
    }
  }

  lemma NothingCounted(now: int, k: Key)
    ensures CountOf(Live(map[], now), k) == 0
  {
  }

  lemma LimitIsPositive(c: Config, op: string)
    requires ValidConfig(c) && op in c.limits
    ensures c.limits[op] >= 1
  {
  }

  lemma RoomFor(c: Config, calls: seq<Call>, now: int, op: string, dim: Dimension, id: string)
    requires ValidConfig(c) && Timed(calls) && op in c.limits && (calls != [] ==> Last(calls).time <= now)
    requires CountIn(AdmittedTimes(c, calls, op, dim, id), now - c.window + 1, now + 1) < c.limits[op]
    ensures CountOf(Live(After(c, calls), now), KeyFor(op, dim, id)) < c.limits[op]
  {
    hide Keys, KeyFor, ValidRequest, AdmittedTimes, Times, CountIn, Spread, Tracks, Windowed, Timed, WindowStart,
      ValidConfig, Known, CountOf, Live, Admission;
    OneOperationPerBucket(c, calls, op, dim, id);
    TimesAreOfIds(c, calls, op, dim, id);
    var k := KeyFor(op, dim, id);
    BucketHistory(c, calls, k, op);
    if calls != [] {
      BucketCountsRecent(After(c, calls), k, Times(c, calls, k), WindowStart(c, calls, k), c.limits[op], c.window,
                         Last(calls).time, now);
    } else {
      NothingCounted(now, k);
      LimitIsPositive(c, op);
    }
  }

  /** Fewer admitted calls than the limit within the last window length, for each of the request's four ids. */
  ghost predicate BelowLimits(c: Config, calls: seq<Call>, now: int, r: Request)
    requires Known(c, r)
  {
    forall dim :: CountIn(AdmittedTimes(c, calls, r.operation, dim, IdOf(r, dim)), now - c.window + 1, now + 1)
                  < c.limits[r.operation]
  }

  /** Nobody is refused early: a call whose workspace, client, agent and subject all had fewer than the limit within
      the last window length is admitted, unless the map is full. */
  lemma NeverRefusedEarly(c: Config, calls: seq<Call>, x: Call)
    requires ValidConfig(c) && Timed(calls + [x]) && Known(c, x.request)
    requires BelowLimits(c, calls, x.time, x.request)
    ensures var live := Live(After(c, calls), x.time);
            Outcomes(c, calls + [x])[|calls|] == if Fits(c, live, Keys(x.request)) then Admitted else Exceeded
  {
    var r, live := x.request, Live(After(c, calls), x.time);
    assert Timed(calls) by { assert forall i :: 0 <= i < |calls| ==> calls[i] == (calls + [x])[i]; }
    assert calls != [] ==> Last(calls).time <= x.time by {
      assert calls != [] ==> (calls + [x])[|calls| - 1] == Last(calls) && (calls + [x])[|calls|] == x;
    }
    EveryKeyHasRoom(c, calls, x);
    assert Init(calls + [x]) == calls && Last(calls + [x]) == x;
    hide Keys, Fits, ValidRequest, HasRoom, BelowLimits;
  }

  lemma EveryKeyHasRoom(c: Config, calls: seq<Call>, x: Call)
    requires ValidConfig(c) && Timed(calls) && Known(c, x.request) && (calls != [] ==> Last(calls).time <= x.time)
    requires BelowLimits(c, calls, x.time, x.request)
    ensures HasRoom(Live(After(c, calls), x.time), Keys(x.request), c.limits[x.request.operation])
  {
    hide Keys, KeyFor, ValidRequest, AdmittedTimes, CountIn, ValidConfig, Timed;
    var r, live := x.request, Live(After(c, calls), x.time);
    forall i | 0 <= i < 4
      ensures CountOf(live, Keys(r)[i]) < c.limits[r.operation]
    {
      var dim := if i == 0 then ByWorkspace else if i == 1 then ByClient else if i == 2 then ByAgent else BySubject;
      RoomFor(c, calls, x.time, r.operation, dim, IdOf(r, dim));
      UsesBucket(c, r, r.operation, dim, IdOf(r, dim));
    }
  }

  lemma {:induction false} CountsStayWithinLimit(c: Config, calls: seq<Call>, k: Key, op: string)
    requires ValidConfig(c) && op in c.limits
    requires forall i :: 0 <= i < |calls| && k in Keys(calls[i].request) && Known(c, calls[i].request) ==>
               calls[i].request.operation == op
    ensures k in After(c, calls) ==> 1 <= After(c, calls)[k].count <= c.limits[op]
    decreases |calls|
  {
    hide Keys, Admission;
    if calls != [] {
      CountsStayWithinLimit(c, Init(calls), k, op);
      BucketStep(c, After(c, Init(calls)), Last(calls).time, Last(calls).request, k);
    }
  }

  /** No bucket ever counts more than its limit, even if the clock steps back. */
  lemma BucketsStayWithinLimit(c: Config, calls: seq<Call>, op: string, dim: Dimension, id: string)
    requires ValidConfig(c) && op in c.limits
    ensures var k := KeyFor(op, dim, id);
            k in After(c, calls) ==> 1 <= After(c, calls)[k].count <= c.limits[op]
  {
    OneOperationPerBucket(c, calls, op, dim, id);
    hide Keys, KeyFor, ValidRequest;
    CountsStayWithinLimit(c, calls, KeyFor(op, dim, id), op);
  }
}
