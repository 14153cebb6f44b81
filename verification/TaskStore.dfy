/** The durable protocol task store: versioned saves and keyset-paginated lists, per principal. */
module TaskStore {
  import opened Common
  import opened PageToken

  type Id = Bytes
  datatype Row = Row(version: int, context: string, state: string, updatedAt: int)
  type Tasks = map<Id, Row>
  datatype Actor = Actor(kind: string, id: string)

  datatype Error = InvalidParams | Unauthenticated | ConcurrentModification | BadPageSize | BadHistoryLength | BadToken
  datatype Result<T> = Ok(value: T) | Err(error: Error)

  // ----------------------------------------------------------- saving

  datatype Content = Content(context: string, state: string)

  /** Save one task; `prev` is None when the caller tracks no version. */
  function SaveTx(t: Tasks, id: Id, content: Content, prev: Option<int>, now: int): (Result<int>, Tasks)
  {
    if id == [] then (Err(InvalidParams), t)
    else if id !in t then
      if prev.Some? && prev.value != 0 then (Err(ConcurrentModification), t)
      else (Ok(1), t[id := Row(1, content.context, content.state, now)])
    else if prev.Some? && t[id].version != prev.value then (Err(ConcurrentModification), t)
    else (Ok(t[id].version + 1), t[id := Row(t[id].version + 1, content.context, content.state, now)])
  }

  // ---------------------------------------------------------- listing

  /** Bytewise order of task ids. */
  predicate Less(a: Id, b: Id)
  {
    b != [] && (a == [] || a[0] < b[0] || (a[0] == b[0] && Less(a[1..], b[1..])))
  }

  /** Newest first, then greatest id first. */
  predicate Precedes(a: Cursor, b: Cursor)
  {
    a.time > b.time || (a.time == b.time && Less(b.id, a.id))
  }

  datatype Query = Query(context: Option<string>, state: Option<string>, updatedAfter: Option<int>)

  predicate Matches(row: Row, q: Query)
  {
    && (q.context.Some? ==> row.context == q.context.value)
    && (q.state.Some? ==> row.state == q.state.value)
    && (q.updatedAfter.Some? ==> row.updatedAt >= q.updatedAfter.value)
  }

  /** Sort keys of the matching rows strictly after the cursor. */
  function Candidates(t: Tasks, q: Query, cursor: Option<Cursor>): set<Cursor>
  {
    set id | id in t && Matches(t[id], q) && (cursor.Some? ==> Precedes(cursor.value, Cursor(t[id].updatedAt, id)))
      :: Cursor(t[id].updatedAt, id)
  }

  predicate IsFirst(k: Cursor, keys: set<Cursor>)
  {
    k in keys && forall x :: x in keys ==> x == k || Precedes(k, x)
  }

  lemma {:induction false} LessIsTotal(a: Id, b: Id)
    ensures a == b || Less(a, b) || Less(b, a)
    ensures !(Less(a, b) && Less(b, a))
    ensures Less(a, b) ==> a != b
  {
    if a != [] && b != [] {
      LessIsTotal(a[1..], b[1..]);
      assert a == [a[0]] + a[1..] && b == [b[0]] + b[1..];
    }
  }

  lemma {:induction false} LessIsTransitive(a: Id, b: Id, c: Id)
    requires Less(a, b) && Less(b, c)
    ensures Less(a, c)
  {
    if a != [] && a[0] == b[0] == c[0] {
      LessIsTransitive(a[1..], b[1..], c[1..]);
    }
  }

  /** Bytewise order: at the first difference the smaller byte comes first, and a proper prefix before the whole. */
  lemma {:induction false} LessIsLexicographic(a: Id, b: Id, n: nat)
    requires n <= |a| && n <= |b| && a[..n] == b[..n]
    requires n == |a| || n == |b| || a[n] != b[n]
    ensures Less(a, b) <==> n < |b| && (n == |a| || a[n] < b[n])
  {
    if n > 0 {
      assert a[0] == a[..n][0] == b[0];
      assert a[1..][..n - 1] == a[..n][1..] && b[1..][..n - 1] == b[..n][1..];
      LessIsLexicographic(a[1..], b[1..], n - 1);
    }
  }

  lemma PrecedesIsTotal(a: Cursor, b: Cursor)
    ensures a == b || Precedes(a, b) || Precedes(b, a)
    ensures !(Precedes(a, b) && Precedes(b, a))
    ensures Precedes(a, b) ==> a != b
  {
    LessIsTotal(a.id, b.id);
  }

  lemma PrecedesIsTransitive(a: Cursor, b: Cursor, c: Cursor)
    requires Precedes(a, b) && Precedes(b, c)
    ensures Precedes(a, c)
  {
    if a.time == b.time == c.time {
      LessIsTransitive(c.id, b.id, a.id);
    }
  }

  lemma FirstIsUnique(keys: set<Cursor>)
    ensures forall a, b :: IsFirst(a, keys) && IsFirst(b, keys) ==> a == b
  {
    forall a, b | IsFirst(a, keys) && IsFirst(b, keys)
      ensures a == b
    {
      PrecedesIsTotal(a, b);
    }
  }

  lemma {:induction false} FirstExists(keys: set<Cursor>)
    requires keys != {}
    ensures exists k :: IsFirst(k, keys)
  {
    var x :| x in keys;
    var rest := keys - {x};
    assert keys == rest + {x};
    if rest == {} {
      assert IsFirst(x, keys);
    } else {
      FirstExists(rest);
      var y :| IsFirst(y, rest);
      PrecedesIsTotal(x, y);
      if Precedes(x, y) {
        forall k | k in rest
          ensures Precedes(x, k)
        {
          if k != y { PrecedesIsTransitive(x, y, k); }
        }
        assert IsFirst(x, keys);
      } else {
        assert IsFirst(y, keys);
      }
    }
  }

  /** ORDER BY updated_at DESC, task_id DESC. */
  function Ordered(keys: set<Cursor>): seq<Cursor>
  {
    if keys == {} then []
    else
      FirstExists(keys);
      FirstIsUnique(keys);
      var k :| IsFirst(k, keys);
      [k] + Ordered(keys - {k})
  }

  ghost predicate Descending(ks: seq<Cursor>)
  {
    forall i, j :: 0 <= i < j < |ks| ==> Precedes(ks[i], ks[j])
  }

  /** The ordering lists exactly the given keys, each once, strictly descending. */
  lemma {:induction false} OrderedIsExact(keys: set<Cursor>)
    ensures Descending(Ordered(keys)) && |Ordered(keys)| == |keys|
    ensures forall k :: k in Ordered(keys) <==> k in keys
  {
    if keys != {} {
      FirstExists(keys);
      FirstIsUnique(keys);
      var k :| IsFirst(k, keys);
      assert Ordered(keys) == [k] + Ordered(keys - {k});
      OrderedIsExact(keys - {k});
      assert forall j :: 0 <= j < |Ordered(keys - {k})| ==> Ordered(keys - {k})[j] in keys - {k};
    }
  }

  datatype ListRequest = ListRequest(query: Query, pageSize: int, historyLength: int, token: string)
  datatype Page = Page(keys: seq<Cursor>, totalSize: nat, pageSize: int, next: string)

  function EffectiveSize(pageSize: int): int
  {
    if pageSize == 0 then 50 else pageSize
  }

  /** Up to `size` keys, and a token for the last of them when more follow. */
  function PageOf(clock: Clock, ks: seq<Cursor>, total: nat, size: int): Page
    requires size >= 1
  {
    if |ks| > size then Page(ks[..size], total, size, EncodeToken(clock, ks[size - 1])) else Page(ks, total, size, "")
  }

  function ListTx(clock: Clock, t: Tasks, req: ListRequest): Result<Page>
  {
    var size := EffectiveSize(req.pageSize);
    if !(1 <= size <= 100) then Err(BadPageSize)
    else if req.historyLength < 0 then Err(BadHistoryLength)
    else
      var total := |Candidates(t, req.query, None)|;
      if req.token == "" then Ok(PageOf(clock, Ordered(Candidates(t, req.query, None)), total, size))
      else
        var cursor := DecodeToken(clock, req.token);
        if cursor.None? then Err(BadToken)
        else Ok(PageOf(clock, Ordered(Candidates(t, req.query, cursor)), total, size))
  }

  // ------------------------------------------------------------ store

  function Of(all: map<Actor, Tasks>, actor: Actor): Tasks
  {
    if actor in all then all[actor] else map[]
  }

  class PostgresTaskStore {
    const clock: Clock
    var tasks: map<Actor, Tasks>

    constructor (clock: Clock)
      ensures this.clock == clock && tasks == map[]
    {
      this.clock := clock;
      tasks := map[];
    }

    /** Saves into the caller's own partition and touches no other. */
    method Save(actor: Option<Actor>, id: Id, content: Content, prev: Option<int>, now: int) returns (r: Result<int>)
      modifies this`tasks
      ensures actor.None? ==> r.Err? && tasks == old(tasks)
      ensures actor.Some? ==> (r, Of(tasks, actor.value)) == SaveTx(old(Of(tasks, actor.value)), id, content, prev, now)
      ensures forall a :: Some(a) != actor ==> Of(tasks, a) == old(Of(tasks, a))
      ensures r.Err? ==> tasks == old(tasks)
    {
      if id == [] { return Err(InvalidParams); }
      if actor.None? { return Err(Unauthenticated); }
      var mine := Of(tasks, actor.value);
      if id !in mine {
        if prev.Some? && prev.value != 0 { return Err(ConcurrentModification); }
        tasks := tasks[actor.value := mine[id := Row(1, content.context, content.state, now)]];
        return Ok(1);
      }
      var current := mine[id].version;
      if prev.Some? && current != prev.value { return Err(ConcurrentModification); }
      tasks := tasks[actor.value := mine[id := Row(current + 1, content.context, content.state, now)]];
      return Ok(current + 1);
    }

    method List(actor: Option<Actor>, req: ListRequest) returns (r: Result<Page>)
      ensures r == if actor.None? then Err(Unauthenticated) else ListTx(clock, Of(tasks, actor.value), req)
    {
      hide Candidates, Ordered, EncodeToken, DecodeToken;
      if actor.None? { return Err(Unauthenticated); }
      var mine := Of(tasks, actor.value);
      var size := if req.pageSize == 0 then 50 else req.pageSize;
      if size < 1 || size > 100 { return Err(BadPageSize); }
      if req.historyLength < 0 { return Err(BadHistoryLength); }
      var total := |Candidates(mine, req.query, None)|;
      var cursor: Option<Cursor> := None;
      if req.token != "" {
        cursor := DecodeToken(clock, req.token);
        if cursor.None? { return Err(BadToken); }
      }
      var ordered := Ordered(Candidates(mine, req.query, cursor));
      var rows := ordered[..Min(size + 1, |ordered|)];
      var keys := [];
      for i := 0 to |rows|
        invariant keys == rows[..i]
      {
        keys := keys + [rows[i]];
      }
      assert rows[..|rows|] == rows;
      var next := "";
      if |keys| > size {
        assert keys[..size] == ordered[..size];
        keys := keys[..size];
        next := EncodeToken(clock, keys[size - 1]);
      }
      assert |ordered| <= size ==> keys == ordered;
      r := Ok(Page(keys, total, size, next));
    }
  }
}
