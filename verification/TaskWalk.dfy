/** Following page tokens through a store that keeps changing, and what versions promise to writers. */
module TaskWalk {
  import opened Common
  import opened PageToken
  import opened TaskStore

  // ------------------------------------------------- what a page says

  /** A page described without the query that made it: its keys are the first matching keys after the
      cursor, and there is a next token exactly when something was left behind. */
  ghost predicate Describes(clock: Clock, t: Tasks, q: Query, size: int, cursor: Option<Cursor>, p: Page)
  {
    var found := Candidates(t, q, cursor);
    && Descending(p.keys)
    && (forall k :: k in p.keys ==> k in found)
    && (p.next == "" ==> forall k :: k in found ==> k in p.keys)
    && (p.next != "" ==>
          && |p.keys| == size >= 1 && p.next == EncodeToken(clock, p.keys[size - 1])
          && (forall k :: k in found ==> k in p.keys || Precedes(p.keys[size - 1], k))
          && exists k :: k in found && k !in p.keys)
  }

  lemma PageIsExact(clock: Clock, t: Tasks, q: Query, size: int, cursor: Option<Cursor>, total: nat)
    requires Faithful(clock) && size >= 1
    ensures Describes(clock, t, q, size, cursor, PageOf(clock, Ordered(Candidates(t, q, cursor)), total, size))
  {
    var found := Candidates(t, q, cursor);
    var ks := Ordered(found);
    OrderedIsExact(found);
    hide Candidates, Ordered, Precedes, EncodeToken;
    var p := PageOf(clock, ks, total, size);
    if |ks| > size {
      TokenRoundTrip(clock, ks[size - 1]);
      assert ks[size] in found;
      forall k | k in found
        ensures k in p.keys || Precedes(p.keys[size - 1], k)
      {
        var i :| 0 <= i < |ks| && ks[i] == k;
        assert i < size ==> p.keys[i] == k;
      }
      NotAmong(ks, size);
    }
  }

  lemma NotAmong(ks: seq<Cursor>, size: nat)
    requires Descending(ks) && size < |ks|
    ensures ks[size] !in ks[..size]
  {
    forall i | 0 <= i < size
      ensures ks[i] != ks[size]
    {
      PrecedesIsTotal(ks[i], ks[size]);
    }
  }

  /** What a listing answers apart from its page: sizes from 1 to 100, 50 by default, and the number of matching
      tasks however far the walk has come. */
  lemma ListAnswersExactly(clock: Clock, t: Tasks, req: ListRequest)
    ensures var r := ListTx(clock, t, req);
            && (r == Err(BadPageSize) <==> req.pageSize < 0 || req.pageSize > 100)
            && (r == Err(BadHistoryLength) <==> 0 <= req.pageSize <= 100 && req.historyLength < 0)
            && (r.Ok? ==>
                  && r.value.pageSize == (if req.pageSize == 0 then 50 else req.pageSize)
                  && |r.value.keys| <= r.value.pageSize
                  && r.value.totalSize == |set id | id in t && Asked(t[id], req.query)|)
  {
    hide Ordered, EncodeToken, DecodeToken;
    var ids := set id | id in t && Asked(t[id], req.query);
    var keys := Candidates(t, req.query, None);
    assert keys == set id | id in ids :: Cursor(t[id].updatedAt, id);
    hide Candidates;
    OneKeyEach(t, ids);
  }

  /** Different tasks have different keys. */
  lemma {:induction false} OneKeyEach(t: Tasks, ids: set<Id>)
    requires forall id :: id in ids ==> id in t
    ensures |set id | id in ids :: Cursor(t[id].updatedAt, id)| == |ids|
  {
    if ids != {} {
      var x :| x in ids;
      OneKeyEach(t, ids - {x});
      var k := Cursor(t[x].updatedAt, x);
      var rest := set id | id in ids - {x} :: Cursor(t[id].updatedAt, id);
      assert k !in rest;
      assert (set id | id in ids :: Cursor(t[id].updatedAt, id)) == rest + {k};
    }
  }

  // ------------------------------------------------------------ walks

  /** Between two pages saves may happen: rows stay, and a task's timestamp never goes back. */
  ghost predicate Evolves(t: Tasks, u: Tasks)
  {
    forall id :: id in t ==> id in u && t[id].updatedAt <= u[id].updatedAt
  }

  /** A save made no earlier than the task's last one is such a change. */
  lemma SaveEvolves(t: Tasks, id: Id, content: Content, prev: Option<int>, now: int)
    requires id in t ==> t[id].updatedAt <= now
    ensures Evolves(t, SaveTx(t, id, content, prev, now).1)
  {
  }

  function Request(q: Query, pageSize: int, pages: seq<Page>): ListRequest
  {
    ListRequest(q, pageSize, 0, if pages == [] then "" else pages[|pages| - 1].next)
  }

  /** Page i was listed from store i with the token of page i - 1, and each page but the last had one. */
  ghost predicate IsWalk(clock: Clock, q: Query, pageSize: int, stores: seq<Tasks>, pages: seq<Page>)
    decreases |pages|
  {
    && |stores| == |pages|
    && (pages != [] ==>
          var n := |pages| - 1;
          && IsWalk(clock, q, pageSize, stores[..n], pages[..n])
          && (n > 0 ==> pages[n - 1].next != "" && Evolves(stores[n - 1], stores[n]))
          && ListTx(clock, stores[n], Request(q, pageSize, pages[..n])) == Ok(pages[n]))
  }

  lemma WalkParts(clock: Clock, q: Query, pageSize: int, stores: seq<Tasks>, pages: seq<Page>)
    requires IsWalk(clock, q, pageSize, stores, pages)
    ensures |stores| == |pages|
    ensures pages != [] ==>
              var n := |pages| - 1;
              && IsWalk(clock, q, pageSize, stores[..n], pages[..n])
              && (n > 0 ==> pages[n - 1].next != "" && Evolves(stores[n - 1], stores[n]))
              && ListTx(clock, stores[n], Request(q, pageSize, pages[..n])) == Ok(pages[n])
  {
    hide ListTx, Evolves;
  }

  /** Everything the walk has returned, in order. */
  function Returned(pages: seq<Page>): seq<Cursor>
  {
    if pages == [] then [] else Returned(pages[..|pages| - 1]) + pages[|pages| - 1].keys
  }

  /** Where the walk stands: the last key returned. */
  function Position(pages: seq<Page>): Option<Cursor>
  {
    if pages == [] || pages[|pages| - 1].keys == [] then None
    else Some(pages[|pages| - 1].keys[|pages[|pages| - 1].keys| - 1])
  }

  lemma {:induction false} TokenIsPosition(clock: Clock, q: Query, pageSize: int, stores: seq<Tasks>, pages: seq<Page>)
    requires Faithful(clock) && IsWalk(clock, q, pageSize, stores, pages) && pages != []
    ensures 1 <= EffectiveSize(pageSize) <= 100
    ensures var n := |pages| - 1;
            Describes(clock, stores[n], q, EffectiveSize(pageSize), Position(pages[..n]), pages[n])
    decreases |pages|
  {
    hide IsWalk, Describes, ListTx, Evolves, Faithful, EffectiveSize, Position;
    WalkParts(clock, q, pageSize, stores, pages);
    var n, size := |pages| - 1, EffectiveSize(pageSize);
    if n > 0 {
      TokenIsPosition(clock, q, pageSize, stores[..n], pages[..n]);
      assert pages[..n][..n - 1] == pages[..n - 1];
      NextIsLastKey(clock, stores[n - 1], q, size, Position(pages[..n - 1]), pages[n - 1]);
      LastPageAdds(pages[..n]);
      NextPage(clock, stores[n], Request(q, pageSize, pages[..n]), pages[n - 1].keys[size - 1], pages[n]);
    } else {
      assert pages[..n] == [];
      NothingReturned();
      FirstPage(clock, stores[n], Request(q, pageSize, []), pages[n]);
    }
  }

  lemma FirstPage(clock: Clock, t: Tasks, req: ListRequest, p: Page)
    requires Faithful(clock) && req.token == "" && ListTx(clock, t, req) == Ok(p)
    ensures 1 <= EffectiveSize(req.pageSize) <= 100
    ensures Describes(clock, t, req.query, EffectiveSize(req.pageSize), None, p)
  {
    hide Describes, Candidates, Ordered, PageOf;
    if 1 <= EffectiveSize(req.pageSize) {
      PageIsExact(clock, t, req.query, EffectiveSize(req.pageSize), None, |Candidates(t, req.query, None)|);
    }
  }

  lemma NextPage(clock: Clock, t: Tasks, req: ListRequest, last: Cursor, p: Page)
    requires Faithful(clock) && req.token == EncodeToken(clock, last)
    requires ListTx(clock, t, req) == Ok(p)
    ensures 1 <= EffectiveSize(req.pageSize) <= 100
    ensures Describes(clock, t, req.query, EffectiveSize(req.pageSize), Some(last), p)
  {
    hide Describes, Candidates, Ordered, PageOf, EncodeToken, DecodeToken;
    TokenRoundTrip(clock, last);
    if 1 <= EffectiveSize(req.pageSize) {
      PageIsExact(clock, t, req.query, EffectiveSize(req.pageSize), Some(last), |Candidates(t, req.query, None)|);
    }
  }

  lemma NextIsLastKey(clock: Clock, t: Tasks, q: Query, size: int, cursor: Option<Cursor>, p: Page)
    requires Describes(clock, t, q, size, cursor, p) && p.next != ""
    ensures size >= 1 && |p.keys| == size && p.next == EncodeToken(clock, p.keys[size - 1])
  {
    hide Candidates, Precedes, Descending, EncodeToken;
  }

  // --------------------------------------------------- nothing twice

  /** Each key returned is of a row that still exists and is no older than when it was returned. */
  ghost predicate Seen(t: Tasks, ks: seq<Cursor>)
  {
    forall k :: k in ks ==> k.id in t && k.time <= t[k.id].updatedAt
  }

  ghost predicate DistinctIds(ks: seq<Cursor>)
  {
    forall i, j :: 0 <= i < j < |ks| ==> ks[i].id != ks[j].id
  }

  lemma AppendPage(t: Tasks, q: Query, before: seq<Cursor>, last: Cursor, keys: seq<Cursor>)
    requires Descending(before) && DistinctIds(before) && Seen(t, before) && Descending(keys)
    requires before != [] ==> last == before[|before| - 1]
    requires forall k :: k in keys ==> k in Candidates(t, q, if before == [] then None else Some(last))
    ensures Descending(before + keys) && DistinctIds(before + keys) && Seen(t, before + keys)
  {
    var all := before + keys;
    assert forall k :: k in keys ==> k.id in t && t[k.id].updatedAt == k.time && (before != [] ==> Precedes(last, k));
    hide Candidates, Precedes;
    forall i, j | 0 <= i < j < |all|
      ensures Precedes(all[i], all[j]) && all[i].id != all[j].id
    {
      if i < |before| <= j {
        assert all[j] in keys && all[i] in before;
        if i < |before| - 1 { PrecedesIsTransitive(all[i], last, all[j]); }
      }
      if |before| <= i {
        assert all[i] in keys && all[j] in keys;
      }
      if |before| <= j {
        LaterMeansOther(t, all[i], all[j]);
      }
    }
  }

  /** A key further down cannot be the same task seen again: its timestamp would have gone back. */
  lemma LaterMeansOther(t: Tasks, a: Cursor, b: Cursor)
    requires Precedes(a, b) && a.id in t && b.id in t && a.time <= t[a.id].updatedAt && b.time == t[b.id].updatedAt
    ensures a.id != b.id
  {
    LessIsTotal(a.id, b.id);
  }

  ghost predicate WalkSound(stores: seq<Tasks>, pages: seq<Page>)
    requires |stores| == |pages|
  {
    var ks := Returned(pages);
    && Descending(ks) && DistinctIds(ks)
    && (pages != [] ==>
          && Seen(stores[|pages| - 1], ks)
          && (pages[|pages| - 1].next != "" ==> ks != [] && Position(pages) == Some(ks[|ks| - 1])))
  }

  lemma AddPage(clock: Clock, t: Tasks, q: Query, size: int, before: seq<Cursor>, p: Page)
    requires Descending(before) && DistinctIds(before) && Seen(t, before)
    requires Describes(clock, t, q, size, if before == [] then None else Some(before[|before| - 1]), p)
    ensures Descending(before + p.keys) && DistinctIds(before + p.keys) && Seen(t, before + p.keys)
    ensures p.next != "" ==> p.keys != []
  {
    hide Descending, DistinctIds, Seen, Candidates, Precedes, EncodeToken;
    AppendPage(t, q, before, if before == [] then Cursor(0, []) else before[|before| - 1], p.keys);
  }

  lemma {:induction false} WalkIsSound(clock: Clock, q: Query, pageSize: int, stores: seq<Tasks>, pages: seq<Page>)
    requires Faithful(clock) && IsWalk(clock, q, pageSize, stores, pages)
    ensures WalkSound(stores, pages)
    decreases |pages|
  {
    hide Describes, Seen, Evolves, ListTx, Faithful, Descending, DistinctIds, IsWalk, Returned, Position;
    WalkParts(clock, q, pageSize, stores, pages);
    if pages == [] {
      NothingReturned();
    } else {
      var n := |pages| - 1;
      WalkIsSound(clock, q, pageSize, stores[..n], pages[..n]);
      TokenIsPosition(clock, q, pageSize, stores, pages);
      SoundNext(clock, q, EffectiveSize(pageSize), stores, pages);
    }
  }

  lemma NothingReturned()
    ensures Returned([]) == [] && Position([]) == None && Descending([]) && DistinctIds([])
    ensures forall t :: Seen(t, [])
  {
  }

  /** The last page adds its keys and becomes the position. */
  lemma LastPageAdds(pages: seq<Page>)
    requires pages != []
    ensures Returned(pages) == Returned(pages[..|pages| - 1]) + pages[|pages| - 1].keys
    ensures pages[|pages| - 1].keys != [] ==>
              Position(pages) == Some(pages[|pages| - 1].keys[|pages[|pages| - 1].keys| - 1])
  {
  }

  lemma SoundNext(clock: Clock, q: Query, size: int, stores: seq<Tasks>, pages: seq<Page>)
    requires |stores| == |pages| > 0
    requires var n := |pages| - 1;
             && WalkSound(stores[..n], pages[..n])
             && Describes(clock, stores[n], q, size, Position(pages[..n]), pages[n])
             && (n > 0 ==> pages[n - 1].next != "" && Evolves(stores[n - 1], stores[n]))
    ensures WalkSound(stores, pages)
  {
    hide Describes, Seen, Evolves, Descending, DistinctIds, Returned, Position;
    var n := |pages| - 1;
    var before := Returned(pages[..n]);
    NothingReturned();
    if n > 0 {
      SeenLater(stores[n - 1], stores[n], before);
    } else {
      assert pages[..n] == [];
    }
    AddPage(clock, stores[n], q, size, before, pages[n]);
    LastPageAdds(pages);
  }

  lemma SeenLater(t: Tasks, u: Tasks, ks: seq<Cursor>)
    requires Seen(t, ks) && Evolves(t, u)
    ensures Seen(u, ks)
  {
  }

  /** No task is returned twice, and everything comes out in one strictly descending order, however
      saves interleave with the walk. */
  lemma NoTaskTwice(clock: Clock, q: Query, pageSize: int, stores: seq<Tasks>, pages: seq<Page>)
    requires Faithful(clock) && IsWalk(clock, q, pageSize, stores, pages)
    ensures DistinctIds(Returned(pages)) && Descending(Returned(pages))
  {
    WalkIsSound(clock, q, pageSize, stores, pages);
  }

  // ---------------------------------------------------- nothing missed

  /** The row is one the query asks for: its context and state where they are given, no older than the date given. */
  predicate Asked(row: Row, q: Query)
  {
    && (q.context == None || q.context == Some(row.context))
    && (q.state == None || q.state == Some(row.state))
    && (q.updatedAfter == None || q.updatedAfter.value <= row.updatedAt)
  }

  ghost predicate Untouched(stores: seq<Tasks>, id: Id, row: Row)
  {
    forall i :: 0 <= i < |stores| ==> id in stores[i] && stores[i][id] == row
  }

  /** A matching row after the cursor is on the page or after its last key. */
  lemma PageReaches(clock: Clock, t: Tasks, q: Query, size: int, cursor: Option<Cursor>, p: Page, id: Id)
    requires Describes(clock, t, q, size, cursor, p) && id in t && Matches(t[id], q)
    requires cursor.Some? ==> Precedes(cursor.value, Cursor(t[id].updatedAt, id))
    ensures var k := Cursor(t[id].updatedAt, id);
            k in p.keys || (p.next != "" && p.keys != [] && Precedes(p.keys[|p.keys| - 1], k))
  {
    hide Matches, Precedes, Descending, EncodeToken;
    assert Cursor(t[id].updatedAt, id) in Candidates(t, q, cursor);
    hide Candidates;
  }

  /** What a walk owes an untouched task: it has been returned, or it comes after the walk's position. */
  ghost predicate ReturnedOrAhead(pages: seq<Page>, k: Cursor)
    requires pages != []
  {
    || k in Returned(pages)
    || (pages[|pages| - 1].next != "" && Position(pages).Some? && Precedes(Position(pages).value, k))
  }

  lemma {:induction false} UntouchedIsReached(
      clock: Clock, q: Query, pageSize: int, stores: seq<Tasks>, pages: seq<Page>, id: Id, row: Row)
    requires Faithful(clock) && IsWalk(clock, q, pageSize, stores, pages) && pages != []
    requires Untouched(stores, id, row) && Matches(row, q)
    ensures ReturnedOrAhead(pages, Cursor(row.updatedAt, id))
    decreases |pages|
  {
    hide IsWalk;
    WalkParts(clock, q, pageSize, stores, pages);
    hide Describes, ListTx, Evolves, Matches, Precedes, Faithful;
    var n, k := |pages| - 1, Cursor(row.updatedAt, id);
    if n > 0 {
      UntouchedIsReached(clock, q, pageSize, stores[..n], pages[..n], id, row);
    }
    TokenIsPosition(clock, q, pageSize, stores, pages);
    assert stores[n][id] == row;
    hide IsWalk, Untouched;
    if k !in Returned(pages[..n]) {
      PageReaches(clock, stores[n], q, EffectiveSize(pageSize), Position(pages[..n]), pages[n], id);
    }
  }

  /** A matching task that nobody touches during a complete walk is returned exactly once. */
  lemma UntouchedExactlyOnce(
      clock: Clock, q: Query, pageSize: int, stores: seq<Tasks>, pages: seq<Page>, id: Id, row: Row)
    requires Faithful(clock) && IsWalk(clock, q, pageSize, stores, pages)
    requires pages != [] && pages[|pages| - 1].next == ""
    requires Untouched(stores, id, row) && Asked(row, q)
    ensures exists i :: 0 <= i < |Returned(pages)| && Returned(pages)[i] == Cursor(row.updatedAt, id)
                        && forall j :: 0 <= j < |Returned(pages)| && j != i ==> Returned(pages)[j].id != id
  {
    UntouchedIsReached(clock, q, pageSize, stores, pages, id, row);
    WalkIsSound(clock, q, pageSize, stores, pages);
    hide IsWalk, Candidates, Matches, Position, Untouched, Precedes, Returned, Seen;
    var ks := Returned(pages);
    var i :| 0 <= i < |ks| && ks[i] == Cursor(row.updatedAt, id);
    assert forall j :: 0 <= j < |ks| && j != i ==> ks[j].id != id;
  }

  /** Nothing but matching tasks is returned. */
  lemma {:induction false} OnlyMatching(
      clock: Clock, q: Query, pageSize: int, stores: seq<Tasks>, pages: seq<Page>, k: Cursor)
    requires Faithful(clock) && IsWalk(clock, q, pageSize, stores, pages) && k in Returned(pages)
    ensures exists i :: 0 <= i < |stores| && Stands(stores[i], q, k)
    decreases |pages|
  {
    hide IsWalk;
    WalkParts(clock, q, pageSize, stores, pages);
    var n := |pages| - 1;
    if k in Returned(pages[..n]) {
      OnlyMatching(clock, q, pageSize, stores[..n], pages[..n], k);
      var i :| 0 <= i < n && Stands(stores[..n][i], q, k);
      assert Stands(stores[i], q, k);
    } else {
      TokenIsPosition(clock, q, pageSize, stores, pages);
      assert Stands(stores[n], q, k);
    }
  }

  ghost predicate Stands(t: Tasks, q: Query, k: Cursor)
  {
    k.id in t && t[k.id].updatedAt == k.time && Asked(t[k.id], q)
  }

  // --------------------------------------------------------- it ends

  /** Saves during the walk stamp later than anything stored when it began. */
  ghost predicate StampedLater(first: Tasks, t: Tasks)
  {
    forall id, other :: id in t && other in first ==>
      (id in first && t[id] == first[id]) || t[id].updatedAt > first[other].updatedAt
  }

  lemma {:induction false} FullPages(clock: Clock, q: Query, pageSize: int, stores: seq<Tasks>, pages: seq<Page>)
    requires Faithful(clock) && IsWalk(clock, q, pageSize, stores, pages) && pages != []
    ensures |Returned(pages)| >= EffectiveSize(pageSize) * (|pages| - 1)
    ensures pages[|pages| - 1].next != "" ==> |Returned(pages)| >= EffectiveSize(pageSize) * |pages|
    decreases |pages|
  {
    hide IsWalk, Describes, Returned, Position, EffectiveSize, ListTx, Evolves, Faithful;
    WalkParts(clock, q, pageSize, stores, pages);
    var n, size := |pages| - 1, EffectiveSize(pageSize);
    TokenIsPosition(clock, q, pageSize, stores, pages);
    PageIsFull(clock, stores[n], q, size, Position(pages[..n]), pages[n]);
    LastPageAdds(pages);
    if n > 0 {
      FullPages(clock, q, pageSize, stores[..n], pages[..n]);
      OneMore(size, n);
    }
  }

  lemma PageIsFull(clock: Clock, t: Tasks, q: Query, size: int, cursor: Option<Cursor>, p: Page)
    requires Describes(clock, t, q, size, cursor, p)
    ensures p.next != "" ==> |p.keys| == size
  {
    hide Candidates, Precedes, Descending, EncodeToken;
  }

  lemma OneMore(size: int, n: nat)
    ensures size * (n + 1) == size * n + size
  {
  }

  lemma {:induction false} IdsFit(ks: seq<Cursor>, ids: set<Id>)
    requires DistinctIds(ks) && forall i :: 0 <= i < |ks| ==> ks[i].id in ids
    ensures |ks| <= |ids|
  {
    if ks != [] {
      var n := |ks| - 1;
      IdsFit(ks[..n], ids - {ks[n].id});
    }
  }

  /** Each page but the last is full, so a walk of n + 1 pages has met n * size different tasks; it ends
      as soon as the store has no more. */
  lemma WalkIsBounded(clock: Clock, q: Query, pageSize: int, stores: seq<Tasks>, pages: seq<Page>)
    requires Faithful(clock) && IsWalk(clock, q, pageSize, stores, pages) && pages != []
    ensures EffectiveSize(pageSize) * (|pages| - 1) <= |stores[|stores| - 1]|
  {
    hide IsWalk, EffectiveSize, Returned, Descending, DistinctIds, Position;
    WalkParts(clock, q, pageSize, stores, pages);
    var n := |pages| - 1;
    FullPages(clock, q, pageSize, stores, pages);
    WalkIsSound(clock, q, pageSize, stores, pages);
    var ks := Returned(pages);
    assert forall i :: 0 <= i < |ks| ==> ks[i] in ks;
    IdsFit(ks, stores[n].Keys);
  }

  lemma OldStamp(first: Tasks, t: Tasks, q: Query, last: Cursor, k: Cursor)
    requires StampedLater(first, t) && Stands(first, q, last) && Stands(t, q, k) && k.time <= last.time
    ensures Stands(first, q, k)
  {
  }

  lemma {:induction false} OnlyTheFirstStore(
      clock: Clock, q: Query, pageSize: int, stores: seq<Tasks>, pages: seq<Page>)
    requires Faithful(clock) && IsWalk(clock, q, pageSize, stores, pages) && pages != []
    requires forall i :: 0 <= i < |stores| ==> StampedLater(stores[0], stores[i])
    ensures forall k :: k in Returned(pages) ==> Stands(stores[0], q, k)
    decreases |pages|
  {
    hide IsWalk;
    WalkParts(clock, q, pageSize, stores, pages);
    var n := |pages| - 1;
    TokenIsPosition(clock, q, pageSize, stores, pages);
    if n > 0 {
      OnlyTheFirstStore(clock, q, pageSize, stores[..n], pages[..n]);
      WalkIsSound(clock, q, pageSize, stores[..n], pages[..n]);
      var last := Position(pages[..n]).value;
      assert last in Returned(pages[..n]);
      assert forall k :: k in pages[n].keys ==> Stands(stores[n], q, k) && k.time <= last.time;
      hide IsWalk, Describes, WalkSound;
      forall k | k in pages[n].keys
        ensures Stands(stores[0], q, k)
      {
        OldStamp(stores[0], stores[n], q, last, k);
      }
    }
  }

  /** Under one clock the walk ends whatever is saved meanwhile: it returns only tasks of the store it
      started from, so it cannot take more pages than that store fills. */
  lemma WalkEnds(clock: Clock, q: Query, pageSize: int, stores: seq<Tasks>, pages: seq<Page>)
    requires Faithful(clock) && IsWalk(clock, q, pageSize, stores, pages) && pages != []
    requires forall i :: 0 <= i < |stores| ==> StampedLater(stores[0], stores[i])
    ensures EffectiveSize(pageSize) * (|pages| - 1) <= |stores[0]|
  {
    hide IsWalk, EffectiveSize, Returned, Descending, DistinctIds, Position;
    WalkParts(clock, q, pageSize, stores, pages);
    FullPages(clock, q, pageSize, stores, pages);
    WalkIsSound(clock, q, pageSize, stores, pages);
    OnlyTheFirstStore(clock, q, pageSize, stores, pages);
    var ks := Returned(pages);
    assert forall i :: 0 <= i < |ks| ==> ks[i] in ks;
    IdsFit(ks, stores[0].Keys);
  }

  lemma WalkGrows(clock: Clock, q: Query, pageSize: int, stores: seq<Tasks>, pages: seq<Page>, t: Tasks, page: Page)
    requires IsWalk(clock, q, pageSize, stores, pages) && |stores| == |pages|
    requires ListTx(clock, t, Request(q, pageSize, pages)) == Ok(page)
    requires pages != [] ==> pages[|pages| - 1].next != "" && Evolves(stores[|stores| - 1], t)
    ensures IsWalk(clock, q, pageSize, stores + [t], pages + [page])
  {
    hide ListTx, Evolves;
    var longer, more := pages + [page], stores + [t];
    assert longer[..|pages|] == pages && more[..|pages|] == stores;
  }

  /** A walk with a next token goes on, from whatever the store has become, exactly when the last id of the last
      page has no underscore. */
  lemma WalkContinuesExactly(clock: Clock, q: Query, pageSize: int, stores: seq<Tasks>, pages: seq<Page>, t: Tasks)
    requires Faithful(clock) && IsWalk(clock, q, pageSize, stores, pages) && 1 <= EffectiveSize(pageSize) <= 100
    requires pages != [] ==> pages[|pages| - 1].next != "" && Evolves(stores[|stores| - 1], t)
    ensures var page := ListTx(clock, t, Request(q, pageSize, pages));
            && (page.Ok? <==> (Position(pages).Some? ==> UNDERSCORE !in Position(pages).value.id))
            && (page.Ok? ==> IsWalk(clock, q, pageSize, stores + [t], pages + [page.value]))
  {
    hide IsWalk, Describes, Evolves, Faithful, ListTx, EffectiveSize, Position;
    WalkParts(clock, q, pageSize, stores, pages);
    var n, req := |pages|, Request(q, pageSize, pages);
    ListAnswers(clock, t, req);
    if n > 0 {
      TokenIsPosition(clock, q, pageSize, stores, pages);
      NextIsLastKey(clock, stores[n - 1], q, EffectiveSize(pageSize), Position(pages[..n - 1]), pages[n - 1]);
      LastPageAdds(pages);
      UnderscoreStopsTheWalk(clock, t, req, pages[n - 1].keys[EffectiveSize(pageSize) - 1]);
    } else {
      NothingReturned();
    }
    var page := ListTx(clock, t, req);
    if page.Ok? {
      WalkGrows(clock, q, pageSize, stores, pages, t, page.value);
    }
  }

  /** With admissible sizes only the token can be refused. */
  lemma ListAnswers(clock: Clock, t: Tasks, req: ListRequest)
    requires 1 <= EffectiveSize(req.pageSize) <= 100 && req.historyLength >= 0
    ensures ListTx(clock, t, req).Ok? || ListTx(clock, t, req) == Err(BadToken)
    ensures req.token == "" ==> ListTx(clock, t, req).Ok?
  {
    hide Candidates, Ordered, PageOf, DecodeToken;
  }

  /** A page that ends at an id with an underscore gets a token no later call accepts. */
  lemma UnderscoreStopsTheWalk(clock: Clock, t: Tasks, req: ListRequest, k: Cursor)
    requires Faithful(clock) && 1 <= EffectiveSize(req.pageSize) <= 100 && req.historyLength >= 0
    requires req.token == EncodeToken(clock, k)
    ensures ListTx(clock, t, req) == Err(BadToken) <==> UNDERSCORE in k.id
  {
    hide Candidates, Ordered, PageOf;
    TokenRoundTrip(clock, k);
  }

  /** Two tasks, the newer with the id "_". */
  const STORE: Tasks := map[[UNDERSCORE] := Row(1, "", "", 2), [65] := Row(1, "", "", 1)]
  const ALL := Query(None, None, None)

  lemma TwoCandidates()
    ensures Candidates(STORE, ALL, None) == {Cursor(2, [UNDERSCORE]), Cursor(1, [65])}
    ensures |Candidates(STORE, ALL, None)| == 2
  {
    var a: Id, b: Id := [UNDERSCORE], [65];
    assert a != b && STORE[a].updatedAt == 2 && STORE[b].updatedAt == 1;
    assert a in STORE && b in STORE && forall id :: id in STORE ==> id == a || id == b;
    var found := Candidates(STORE, ALL, None);
    assert Matches(STORE[a], ALL) && Matches(STORE[b], ALL);
    assert Cursor(2, a) in found && Cursor(1, b) in found;
    assert forall k :: k in found ==> k == Cursor(2, a) || k == Cursor(1, b);
    assert found == {Cursor(2, a), Cursor(1, b)};
  }

  /** A walk that really stops: its first page has a next token, and the next call refuses it with a task unseen. */
  lemma UnderscoreWalkStops(clock: Clock)
    requires Faithful(clock)
    ensures var first := ListTx(clock, STORE, ListRequest(ALL, 1, 0, ""));
            && first.Ok? && first.value.keys == [Cursor(2, [UNDERSCORE])] && first.value.next != ""
            && ListTx(clock, STORE, ListRequest(ALL, 1, 0, first.value.next)) == Err(BadToken)
  {
    var found, top, low := Candidates(STORE, ALL, None), Cursor(2, [UNDERSCORE]), Cursor(1, [65]);
    TwoCandidates();
    OrderedIsExact(found);
    var ks := Ordered(found);
    assert ks[0] in ks && ks[1] in ks && Precedes(ks[0], ks[1]) && !Precedes(low, top);
    PrecedesIsTotal(ks[0], ks[1]);
    assert ks[0] == top && ks[..1] == [top];
    hide Candidates, Ordered, EncodeToken, DecodeToken, Faithful;
    TokenRoundTrip(clock, top);
    var next := ListRequest(ALL, 1, 0, EncodeToken(clock, top));
    assert top.id == [UNDERSCORE] && UNDERSCORE in top.id;
    UnderscoreStopsTheWalk(clock, STORE, next, top);
  }

  // -------------------------------------------------------- versions

  datatype SaveCall = SaveCall(id: Id, content: Content, prev: Option<int>, now: int)

  function AfterSaves(calls: seq<SaveCall>): Tasks
  {
    if calls == [] then map[]
    else
      var c := calls[|calls| - 1];
      SaveTx(AfterSaves(calls[..|calls| - 1]), c.id, c.content, c.prev, c.now).1
  }

  function Answer(calls: seq<SaveCall>): Result<int>
    requires calls != []
  {
    var c := calls[|calls| - 1];
    SaveTx(AfterSaves(calls[..|calls| - 1]), c.id, c.content, c.prev, c.now).0
  }

  function Accepted(calls: seq<SaveCall>, id: Id): nat
  {
    if calls == [] then 0
    else Accepted(calls[..|calls| - 1], id) + if calls[|calls| - 1].id == id && Answer(calls).Ok? then 1 else 0
  }

  /** The last save of the task that was accepted. */
  function LastAccepted(calls: seq<SaveCall>, id: Id): Option<SaveCall>
  {
    if calls == [] then None
    else if calls[|calls| - 1].id == id && Answer(calls).Ok? then Some(calls[|calls| - 1])
    else LastAccepted(calls[..|calls| - 1], id)
  }

  /** A task's version is the number of its saves that were accepted, and it holds what the last of them wrote. */
  lemma {:induction false} VersionsCountSaves(calls: seq<SaveCall>, id: Id)
    ensures id in AfterSaves(calls) <==> LastAccepted(calls, id).Some?
    ensures Accepted(calls, id) > 0 <==> LastAccepted(calls, id).Some?
    ensures id in AfterSaves(calls) ==>
              var last := LastAccepted(calls, id).value;
              AfterSaves(calls)[id] == Row(Accepted(calls, id), last.content.context, last.content.state, last.now)
    decreases |calls|
  {
    if calls != [] {
      VersionsCountSaves(calls[..|calls| - 1], id);
    }
  }

  /** What a save answers, in every history: the next version if it names none or the present one, none of a task not
      yet stored being 0; otherwise it is a concurrent modification. Every other task stays as it was. */
  lemma SaveAnswersExactly(calls: seq<SaveCall>)
    requires calls != []
    ensures var c, init := calls[|calls| - 1], calls[..|calls| - 1];
            var n := Accepted(init, c.id);
            && Answer(calls) == (if c.id == [] then Err(InvalidParams)
                                 else if c.prev == None || c.prev == Some(n) then Ok(n + 1)
                                 else Err(ConcurrentModification))
            && (forall id :: id in AfterSaves(init) && (id != c.id || Answer(calls).Err?) ==>
                  id in AfterSaves(calls) && AfterSaves(calls)[id] == AfterSaves(init)[id])
            && (Answer(calls).Ok? ==>
                  && c.id in AfterSaves(calls)
                  && AfterSaves(calls)[c.id] == Row(n + 1, c.content.context, c.content.state, c.now))
  {
    VersionsCountSaves(calls[..|calls| - 1], calls[|calls| - 1].id);
  }

  /** No lost update: a save naming version v >= 1 is accepted exactly when no other save of the task was
      accepted since v was handed out. */
  lemma NoLostUpdate(calls: seq<SaveCall>, v: int)
    requires calls != [] && v >= 1 && calls[|calls| - 1].prev == Some(v) && calls[|calls| - 1].id != []
    ensures Answer(calls).Ok? <==> Accepted(calls[..|calls| - 1], calls[|calls| - 1].id) == v
    ensures Answer(calls).Ok? ==> Answer(calls) == Ok(v + 1)
  {
    VersionsCountSaves(calls[..|calls| - 1], calls[|calls| - 1].id);
  }

  lemma {:induction false} AcceptedGrows(calls: seq<SaveCall>, n: nat, id: Id)
    requires n <= |calls|
    ensures Accepted(calls[..n], id) <= Accepted(calls, id)
    decreases |calls|
  {
    if n < |calls| {
      assert calls[..|calls| - 1][..n] == calls[..n];
      AcceptedGrows(calls[..|calls| - 1], n, id);
    } else {
      assert calls[..n] == calls;
    }
  }

  /** Of two saves naming the same version of the same task, at most one is ever accepted. */
  lemma OneSavePerVersion(calls: seq<SaveCall>, m: nat, v: int)
    requires calls != [] && m < |calls| - 1 && v >= 1
    requires var a, b := calls[m], calls[|calls| - 1]; a.id == b.id && a.prev == b.prev == Some(v)
    requires Answer(calls[..m + 1]).Ok?
    ensures Answer(calls) == Err(ConcurrentModification)
  {
    var init, id := calls[..|calls| - 1], calls[m].id;
    assert calls[..m + 1][..m] == calls[..m];
    NoLostUpdate(calls[..m + 1], v);
    NoLostUpdate(calls, v);
    assert init[..m + 1] == calls[..m + 1];
    AcceptedGrows(init, m + 1, id);
  }
}
