/** The response body limiter: at most `limit` bytes pass, and a longer body ends in the limit error, never in a clean
    end of file, unless it stalls at the limit. */
module BoundedReader {
  import opened Common

  type Byte = b: int | 0 <= b < 256
  type Bytes = seq<Byte>

  // ------------------------------------------------------------- body

  /** How the underlying body ends once its bytes are read. */
  datatype Ending = Eof | Broken(code: int)

  /** What the body does with one read: nothing, without an error; or some bytes, the last ones perhaps together with
      the ending. */
  datatype Move = Idle | Give(size: nat, together: bool)

  /** The bytes still to come, the ending after them, and how the coming reads will be served; once the moves are used
      up the body gives a byte at a time. */
  datatype Body = Body(data: Bytes, ending: Ending, moves: seq<Move>)

  datatype Served = Served(chunk: Bytes, err: Option<Ending>, rest: Body)

  function NextMove(b: Body): Move
  {
    if b.moves == [] then Give(1, false) else b.moves[0]
  }

  function Advance(b: Body, taken: nat): Body
    requires taken <= |b.data|
  {
    b.(data := b.data[taken..], moves := if b.moves == [] then [] else b.moves[1..])
  }

  /** One read of the body into a buffer with this much room. */
  function Serve(b: Body, room: nat): Served
  {
    match NextMove(b)
    case Idle => Served([], None, Advance(b, 0))
    case Give(size, together) =>
      if room == 0 then Served([], if b.data == [] && together then Some(b.ending) else None, Advance(b, 0))
      else if b.data == [] then Served([], Some(b.ending), Advance(b, 0))
      else
        var n := Min(if size == 0 then 1 else size, Min(room, |b.data|));
        Served(b.data[..n], if n == |b.data| && together then Some(b.ending) else None, Advance(b, n))
  }

  /** How often the body will still stall. */
  function Stalls(moves: seq<Move>): nat
  {
    if moves == [] then 0 else (if moves[0].Idle? then 1 else 0) + Stalls(moves[1..])
  }

  lemma ServeFacts(b: Body, room: nat)
    ensures var s := Serve(b, room);
            && s.chunk + s.rest.data == b.data && |s.chunk| <= room && s.rest.ending == b.ending
            && (s.err.Some? ==> s.rest.data == [] && s.err.value == b.ending)
            && Stalls(s.rest.moves) <= Stalls(b.moves)
            && (s.chunk == [] && s.err.None? ==> room == 0 || Stalls(s.rest.moves) < Stalls(b.moves))
  {
  }

  // ----------------------------------------------------------- reader

  datatype Failure = TooLarge | Ended(how: Ending)

  /** What a caller should get in the end: the whole body and its ending, or the first bytes and the error. */
  function Outcome(body: Bytes, ending: Ending, limit: nat): (Bytes, Failure)
  {
    if |body| <= limit then (body, Ended(ending)) else (body[..limit], TooLarge)
  }

  datatype Reader = Reader(source: Body, n: nat, oversize: bool)

  /** `idled`: the budget was spent, and asking for one more byte brought neither a byte nor an ending. */
  datatype Reading = Reading(chunk: Bytes, err: Option<Failure>, reader: Reader, idled: bool)

  function Ends(err: Option<Ending>): Option<Failure>
  {
    if err.Some? then Some(Ended(err.value)) else None
  }

  function ReadOne(r: Reader, room: nat): (one: Reading)
    ensures one.idled ==> one.err == Some(Ended(Eof))
  {
    if r.oversize then Reading([], Some(TooLarge), r, false)
    else if r.n == 0 then
      var probe := Serve(r.source, 1);
      if probe.chunk != [] then Reading([], Some(TooLarge), Reader(probe.rest, 0, true), false)
      else if probe.err.Some? then Reading([], Ends(probe.err), Reader(probe.rest, 0, false), false)
      else Reading([], Some(Ended(Eof)), Reader(probe.rest, 0, false), true)
    else
      var s := Serve(r.source, Min(room, r.n));
      assert |s.chunk| <= r.n by { ServeFacts(r.source, Min(room, r.n)); }
      var left := r.n - |s.chunk|;
      if s.err.None? && left == 0 then
        var peek := Serve(s.rest, 1);
        if peek.chunk != [] then Reading(s.chunk, None, Reader(peek.rest, 0, true), false)
        else if peek.err.Some? && peek.err.value != Eof then
          Reading(s.chunk, Ends(peek.err), Reader(peek.rest, 0, false), false)
        else Reading(s.chunk, None, Reader(peek.rest, 0, false), false)
      else Reading(s.chunk, Ends(s.err), Reader(s.rest, left, false), false)
  }

  /** The reader part of the way through `body`. */
  ghost predicate Tracks(r: Reader, body: Bytes, delivered: Bytes, limit: nat)
  {
    && r.n == limit - |delivered|
    && (if r.oversize then r.n == 0 && |body| > limit && delivered == body[..limit]
        else body == delivered + r.source.data)
  }

  /** When the ending a read reports is wrong: the body stalled at the limit with something else still to come than a
      clean end. */
  predicate Misled(one: Reading)
  {
    one.idled && (one.reader.source.data != [] || one.reader.source.ending != Eof)
  }

  lemma ReadOneTracks(r: Reader, room: nat, body: Bytes, delivered: Bytes, limit: nat)
    requires Tracks(r, body, delivered, limit)
    ensures var one := ReadOne(r, room);
            && Tracks(one.reader, body, delivered + one.chunk, limit)
            && |one.chunk| <= room && one.reader.source.ending == r.source.ending
  {
    hide Serve, Stalls;
    ServeFacts(r.source, 1);
    var s := Serve(r.source, Min(room, r.n));
    ServeFacts(r.source, Min(room, r.n));
    ServeFacts(s.rest, 1);
    var one := ReadOne(r, room);
    assert delivered + [] == delivered;
    assert one.reader.oversize && !r.oversize ==> delivered + one.chunk == body[..limit];
  }

  /** The limit error comes alone, and a clean end comes with bytes only if the body gave both at once. */
  lemma BytesComeFirst(r: Reader, room: nat)
    requires ReadOne(r, room).chunk != []
    ensures ReadOne(r, room).err != Some(TooLarge)
    ensures ReadOne(r, room).err == Some(Ended(Eof)) ==> Serve(r.source, Min(room, r.n)).err == Some(Eof)
  {
    hide Serve, Stalls;
  }

  /** The three ways to report an ending. */
  lemma ReadOneEnds(r: Reader, room: nat)
    requires r.oversize ==> r.n == 0
    ensures var one := ReadOne(r, room);
            one.err.Some? ==>
              || (one.reader.oversize && !one.idled && one.err.value == TooLarge)
              || (!one.reader.oversize && !one.idled && one.reader.source.data == []
                  && one.err.value == Ended(one.reader.source.ending))
              || (!one.reader.oversize && one.idled && one.err.value == Ended(Eof) && one.reader.n == 0)
  {
    hide Serve, Stalls;
    ServeFacts(r.source, 1);
    var s := Serve(r.source, Min(room, r.n));
    ServeFacts(r.source, Min(room, r.n));
    ServeFacts(s.rest, 1);
  }

  /** One read delivers a prefix, and the ending it reports is right exactly when it was not misled. */
  lemma ReadOneExact(r: Reader, room: nat, body: Bytes, delivered: Bytes, limit: nat)
    requires Tracks(r, body, delivered, limit)
    ensures var one := ReadOne(r, room);
            && Tracks(one.reader, body, delivered + one.chunk, limit)
            && |one.chunk| <= room && one.reader.source.ending == r.source.ending
            && (one.err.Some? ==>
                  ((delivered + one.chunk, one.err.value) == Outcome(body, r.source.ending, limit) <==> !Misled(one)))
            && (one.idled ==> one.err == Some(Ended(Eof)) && |delivered + one.chunk| == limit)
  {
    hide ReadOne;
    ReadOneTracks(r, room, body, delivered, limit);
    ReadOneEnds(r, room);
    var one := ReadOne(r, room);
    assert !one.reader.oversize && one.reader.source.data == [] ==> delivered + one.chunk == body;
  }

  /** Without an ending a read with room makes progress: bytes come, or one stall fewer is left. */
  lemma ReadOneProgress(r: Reader, room: nat)
    ensures var one := ReadOne(r, room);
            && (one.err.None? && room > 0 ==>
                  one.reader.n + Stalls(one.reader.source.moves) < r.n + Stalls(r.source.moves))
            && (one.idled ==> Stalls(one.reader.source.moves) < Stalls(r.source.moves))
            && Stalls(one.reader.source.moves) <= Stalls(r.source.moves)
  {
    hide Serve, Stalls;
    ServeFacts(r.source, 1);
    var s := Serve(r.source, Min(room, r.n));
    ServeFacts(r.source, Min(room, r.n));
    ServeFacts(s.rest, 1);
  }

  // ---------------------------------------------------- reading it all

  /** Reads with the given buffers until an ending is reported. */
  function Drain(r: Reader, rooms: seq<nat>): Reading
    decreases |rooms|
  {
    if rooms == [] then Reading([], None, r, false)
    else
      var one := ReadOne(r, rooms[0]);
      if one.err.Some? then one
      else
        var more := Drain(one.reader, rooms[1..]);
        more.(chunk := one.chunk + more.chunk)
  }

  lemma {:induction false} DrainFrom(r: Reader, rooms: seq<nat>, body: Bytes, delivered: Bytes, limit: nat)
    requires Tracks(r, body, delivered, limit)
    ensures var all := Drain(r, rooms);
            && Tracks(all.reader, body, delivered + all.chunk, limit)
            && all.reader.source.ending == r.source.ending
            && (all.err.Some? ==>
                  ((delivered + all.chunk, all.err.value) == Outcome(body, r.source.ending, limit) <==> !Misled(all)))
            && (all.idled ==> all.err == Some(Ended(Eof)) && |delivered + all.chunk| == limit)
    decreases |rooms|
  {
    hide ReadOne, Tracks, Outcome;
    if rooms == [] {
      assert delivered + [] == delivered;
    } else {
      var one := ReadOne(r, rooms[0]);
      ReadOneExact(r, rooms[0], body, delivered, limit);
      if one.err.None? {
        var more := Drain(one.reader, rooms[1..]);
        DrainFrom(one.reader, rooms[1..], body, delivered + one.chunk, limit);
        assert delivered + one.chunk + more.chunk == delivered + (one.chunk + more.chunk);
      }
    }
  }

  function Start(b: Body, limit: nat): Reader
  {
    Reader(b, limit, false)
  }

  /** For every body, however it chunks and stalls, and all buffers: what comes out is a prefix, and once an ending is
      reported, bytes and ending are those owed exactly unless the body stalled at the limit while it had more bytes
      or an ending other than a clean one to come. */
  lemma DrainExact(b: Body, limit: nat, rooms: seq<nat>)
    ensures var all := Drain(Start(b, limit), rooms);
            && all.chunk <= b.data && |all.chunk| <= limit
            && (all.err.Some? ==>
                  ((all.chunk, all.err.value) == Outcome(b.data, b.ending, limit)
                   <==> !(all.idled && (|b.data| > limit || b.ending != Eof))))
            && (all.idled ==> all.err == Some(Ended(Eof)) && |all.chunk| == limit)
  {
    hide Drain;
    DrainFrom(Start(b, limit), rooms, b.data, [], limit);
    var all := Drain(Start(b, limit), rooms);
    assert [] + all.chunk == all.chunk;
    assert !all.reader.oversize ==> all.chunk + all.reader.source.data == b.data;
  }

  lemma {:induction false} DrainEndsFrom(r: Reader, rooms: seq<nat>)
    requires |rooms| > r.n + Stalls(r.source.moves) && forall i :: 0 <= i < |rooms| ==> rooms[i] > 0
    ensures Drain(r, rooms).err.Some?
    decreases |rooms|
  {
    hide ReadOne, Stalls;
    ReadOneProgress(r, rooms[0]);
    var one := ReadOne(r, rooms[0]);
    if one.err.None? {
      DrainEndsFrom(one.reader, rooms[1..]);
    }
  }

  /** Reading ends: after one more read than the limit and the body's stalls together an ending has been reported. */
  lemma DrainEnds(b: Body, limit: nat, rooms: seq<nat>)
    requires |rooms| > limit + Stalls(b.moves) && forall i :: 0 <= i < |rooms| ==> rooms[i] > 0
    ensures Drain(Start(b, limit), rooms).err.Some?
  {
    DrainEndsFrom(Start(b, limit), rooms);
  }

  lemma {:induction false} NoStallNoIdling(r: Reader, rooms: seq<nat>)
    requires Stalls(r.source.moves) == 0
    ensures !Drain(r, rooms).idled
    decreases |rooms|
  {
    hide ReadOne, Stalls;
    if rooms != [] {
      ReadOneProgress(r, rooms[0]);
      var one := ReadOne(r, rooms[0]);
      if one.err.None? {
        NoStallNoIdling(one.reader, rooms[1..]);
      }
    }
  }

  /** A body that never reads nothing without an error comes out whole with its own ending when it is within the limit,
      and otherwise as its first bytes and the limit error, never a clean end. */
  lemma SteadyBodyIsRight(b: Body, limit: nat, rooms: seq<nat>)
    requires Stalls(b.moves) == 0 && |rooms| > limit && forall i :: 0 <= i < |rooms| ==> rooms[i] > 0
    ensures var all := Drain(Start(b, limit), rooms);
            all.err.Some? && (all.chunk, all.err.value) == Outcome(b.data, b.ending, limit)
  {
    hide Drain, Stalls, Outcome;
    DrainExact(b, limit, rooms);
    DrainEnds(b, limit, rooms);
    NoStallNoIdling(Start(b, limit), rooms);
  }

  /** The failing case is real: of a body of two bytes that stalls twice after the first, a reader limited to one byte
      passes the first and reports a clean end. */
  lemma StallingBodyEndsCleanly()
    ensures var b := Body([1, 2], Eof, [Give(1, false), Idle, Idle]);
            var all := Drain(Start(b, 1), [1, 1]);
            all.chunk == [1] && all.err == Some(Ended(Eof)) && Outcome(b.data, b.ending, 1) == ([1], TooLarge)
  {
    var b := Body([1, 2], Eof, [Give(1, false), Idle, Idle]);
    var r := Start(b, 1);
    var s := Serve(b, 1);
    assert s == Served([1], None, Body([2], Eof, [Idle, Idle]));
    var peek := Serve(s.rest, 1);
    assert peek == Served([], None, Body([2], Eof, [Idle]));
    var one := ReadOne(r, 1);
    assert one == Reading([1], None, Reader(peek.rest, 0, false), false);
    var two := ReadOne(one.reader, 1);
    assert two.err == Some(Ended(Eof)) && two.chunk == [];
    var rooms: seq<nat> := [1, 1];
    assert Drain(one.reader, rooms[1..]) == two;
    assert Outcome(b.data, b.ending, 1) == ([1], TooLarge);
  }

  // ---------------------------------------------------------- objects

  class Source {
    var body: Body

    constructor (body: Body)
      ensures this.body == body
    {
      this.body := body;
    }

    method Read(room: nat) returns (chunk: Bytes, err: Option<Ending>)
      modifies this
      ensures Served(chunk, err, body) == Serve(old(body), room)
    {
      var s := Serve(body, room);
      body := s.rest;
      return s.chunk, s.err;
    }
  }

  class MaxBytesReader {
    const source: Source
    var n: nat
    var oversize: bool

    constructor (source: Source, limit: nat)
      ensures this.source == source && State() == Start(source.body, limit)
    {
      this.source := source;
      n := limit;
      oversize := false;
    }

    function State(): Reader
      reads this, source
    {
      Reader(source.body, n, oversize)
    }

    method Read(room: nat) returns (chunk: Bytes, err: Option<Failure>)
      modifies this, source
      ensures var one := ReadOne(old(State()), room); chunk == one.chunk && err == one.err && State() == one.reader
    {
      hide Serve;
      if oversize { return [], Some(TooLarge); }
      if n == 0 {
        var one, end := source.Read(1);
        if |one| > 0 {
          oversize := true;
          return [], Some(TooLarge);
        }
        if end.Some? { return [], Some(Ended(end.value)); }
        return [], Some(Ended(Eof));
      }
      var space := room;
      if room > n {
        space := n;
      }
      var end: Option<Ending>;
      ServeFacts(source.body, space);
      chunk, end := source.Read(space);
      n := n - |chunk|;
      if end.None? && n == 0 {
        var one, peeked := source.Read(1);
        if |one| > 0 {
          oversize := true;
          return chunk, None;
        }
        if peeked.Some? && peeked.value != Eof {
          return chunk, Some(Ended(peeked.value));
        }
      }
      err := if end.None? then None else Some(Ended(end.value));
    }

    /** Reading to the end with any non-empty buffers. */
    method ReadAll() returns (bytes: Bytes, failure: Failure, ghost rooms: seq<nat>)
      modifies this, source
      ensures var all := Drain(old(State()), rooms); all.chunk == bytes && all.err == Some(failure)
    {
      bytes, rooms := [], [];
      var err: Option<Failure> := None;
      ghost var start := State();
      while err.None?
        invariant var all := Drain(start, rooms);
                  all.chunk == bytes && all.err == err && (err.None? ==> all.reader == State())
        decreases n + Stalls(source.body.moves), err.None?
      {
        var room :| room >= 1;
        ReadOneProgress(State(), room);
        DrainSnoc(start, rooms, room);
        var chunk;
        chunk, err := Read(room);
        bytes, rooms := bytes + chunk, rooms + [room];
      }
      failure := err.value;
    }
  }

  /** One more buffer continues where the reading stood. */
  lemma {:induction false} DrainSnoc(r: Reader, rooms: seq<nat>, room: nat)
    requires Drain(r, rooms).err.None?
    ensures var before, one := Drain(r, rooms), ReadOne(Drain(r, rooms).reader, room);
            Drain(r, rooms + [room]) == one.(chunk := before.chunk + one.chunk)
    decreases |rooms|
  {
    hide ReadOne;
    var more := rooms + [room];
    if rooms == [] {
      assert more[1..] == [];
      var one := ReadOne(r, room);
      assert one.chunk + [] == one.chunk && [] + one.chunk == one.chunk;
    } else {
      assert more[1..] == rooms[1..] + [room] && more[0] == rooms[0];
      var one := ReadOne(r, rooms[0]);
      DrainSnoc(one.reader, rooms[1..], room);
      var rest := Drain(one.reader, rooms[1..]);
      var last := ReadOne(rest.reader, room);
      assert one.chunk + (rest.chunk + last.chunk) == one.chunk + rest.chunk + last.chunk;
    }
  }
}
