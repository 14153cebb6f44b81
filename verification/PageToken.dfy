/** The opaque list cursor: URL-safe base64 (section 5 of RFC 4648) of a timestamp, an underscore and
    a task id. */
module PageToken {
  import opened Common
  import Splitting

  type Byte = b: int | 0 <= b < 256
  type Bytes = seq<Byte>

  // ---------------------------------------------------------- base64

  type Sextet = v: int | 0 <= v < 64

  function Symbol(v: Sextet): char
  {
    if v < 26 then 'A' + v as char
    else if v < 52 then 'a' + (v - 26) as char
    else if v < 62 then '0' + (v - 52) as char
    else if v == 62 then '-' else '_'
  }

  function Value(c: char): Option<Sextet>
  {
    if 'A' <= c <= 'Z' then Some(c as int - 'A' as int)
    else if 'a' <= c <= 'z' then Some(c as int - 'a' as int + 26)
    else if '0' <= c <= '9' then Some(c as int - '0' as int + 52)
    else if c == '-' then Some(62) else if c == '_' then Some(63) else None
  }

  // The four sextets of three bytes.
  function First(p: Byte): Sextet { p / 4 }
  function Second(p: Byte, q: Byte): Sextet { p % 4 * 16 + q / 16 }
  function Third(q: Byte, r: Byte): Sextet { q % 16 * 4 + r / 64 }
  function Fourth(r: Byte): Sextet { r % 64 }

  function Encode(b: Bytes): string
  {
    if b == [] then ""
    else if |b| == 1 then [Symbol(First(b[0])), Symbol(Second(b[0], 0)), '=', '=']
    else if |b| == 2 then [Symbol(First(b[0])), Symbol(Second(b[0], b[1])), Symbol(Third(b[1], 0)), '=']
    else [Symbol(First(b[0])), Symbol(Second(b[0], b[1])), Symbol(Third(b[1], b[2])), Symbol(Fourth(b[2]))]
         + Encode(b[3..])
  }

  function Pack(x: Sextet, y: Sextet, z: Sextet, w: Sextet): Bytes
  {
    [x * 4 + y / 16, y % 16 * 16 + z / 4, z % 4 * 64 + w]
  }

  /** Groups of four symbols; padding only at the very end. */
  function DecodeGroups(s: string): Option<Bytes>
  {
    if s == "" then Some([])
    else if |s| < 4 then None
    else
      var x, y, z, w := Value(s[0]), Value(s[1]), Value(s[2]), Value(s[3]);
      if x.None? || y.None? then None
      else if s[2] == '=' && s[3] == '=' && |s| == 4 then Some(Pack(x.value, y.value, 0, 0)[..1])
      else if z.None? then None
      else if s[3] == '=' && |s| == 4 then Some(Pack(x.value, y.value, z.value, 0)[..2])
      else if w.None? then None
      else
        var rest := DecodeGroups(s[4..]);
        if rest.None? then None else Some(Pack(x.value, y.value, z.value, w.value) + rest.value)
  }

  /** The decoder skips line breaks wherever they stand. */
  function WithoutBreaks(s: string): string
  {
    if s == "" then "" else (if s[0] == '\r' || s[0] == '\n' then "" else [s[0]]) + WithoutBreaks(s[1..])
  }

  function Decode(s: string): Option<Bytes>
  {
    DecodeGroups(WithoutBreaks(s))
  }

  lemma SymbolValue(v: Sextet)
    ensures Value(Symbol(v)) == Some(v) && Symbol(v) != '=' && Symbol(v) != '\r' && Symbol(v) != '\n'
  {
  }

  lemma PackUndoesSlicing(p: Byte, q: Byte, r: Byte)
    ensures Pack(First(p), Second(p, q), Third(q, r), Fourth(r)) == [p, q, r]
    ensures Pack(First(p), Second(p, 0), 0, 0)[..1] == [p]
    ensures Pack(First(p), Second(p, q), Third(q, 0), 0)[..2] == [p, q]
  {
    FirstByte(p, q);
    FirstByte(p, 0);
    SecondByte(p, q, r);
    SecondByte(p, q, 0);
    ThirdByte(q, r);
    hide First, Second, Third, Fourth;
  }

  lemma FirstByte(p: Byte, q: Byte)
    ensures First(p) * 4 + Second(p, q) / 16 == p
  {
  }

  lemma SecondByte(p: Byte, q: Byte, r: Byte)
    ensures Second(p, q) % 16 * 16 + Third(q, r) / 4 == q
  {
    assert Second(p, q) % 16 == q / 16 && Third(q, r) / 4 == q % 16;
  }

  lemma ThirdByte(q: Byte, r: Byte)
    ensures Third(q, r) % 4 * 64 + Fourth(r) == r
  {
    assert Third(q, r) % 4 == r / 64;
  }

  lemma OneGroup(x: Sextet, y: Sextet, z: Sextet, w: Sextet, rest: string)
    ensures DecodeGroups([Symbol(x), Symbol(y), Symbol(z), Symbol(w)] + rest) ==
            if DecodeGroups(rest).None? then None else Some(Pack(x, y, z, w) + DecodeGroups(rest).value)
    ensures DecodeGroups([Symbol(x), Symbol(y), '=', '=']) == Some(Pack(x, y, 0, 0)[..1])
    ensures DecodeGroups([Symbol(x), Symbol(y), Symbol(z), '=']) == Some(Pack(x, y, z, 0)[..2])
  {
    hide Symbol, Value, Pack;
    SymbolValue(x);
    SymbolValue(y);
    SymbolValue(z);
    SymbolValue(w);
    var s := [Symbol(x), Symbol(y), Symbol(z), Symbol(w)] + rest;
    assert s[4..] == rest;
    assert Value('=') == None by { PaddingHasNoValue(); }
  }

  lemma PaddingHasNoValue()
    ensures Value('=') == None
  {
  }

  lemma {:induction false} GroupsRoundTrip(b: Bytes)
    ensures DecodeGroups(Encode(b)) == Some(b)
    decreases |b|
  {
    hide Symbol, Pack, First, Second, Third, Fourth;
    if b == [] {
    } else if |b| <= 2 {
      var q := if |b| == 2 then b[1] else 0;
      PackUndoesSlicing(b[0], q, 0);
      OneGroup(First(b[0]), Second(b[0], q), Third(q, 0), 0, []);
      assert b == if |b| == 2 then [b[0], q] else [b[0]];
      hide DecodeGroups;
    } else {
      GroupsRoundTrip(b[3..]);
      PackUndoesSlicing(b[0], b[1], b[2]);
      OneGroup(First(b[0]), Second(b[0], b[1]), Third(b[1], b[2]), Fourth(b[2]), Encode(b[3..]));
      assert [b[0], b[1], b[2]] + b[3..] == b;
      hide DecodeGroups;
    }
  }

  lemma {:induction false} EncodeHasNoBreaks(b: Bytes)
    ensures WithoutBreaks(Encode(b)) == Encode(b)
    decreases |b|
  {
    if b != [] {
      var s := Encode(b);
      var tail := if |b| <= 3 then [] else b[3..];
      EncodeHasNoBreaks(tail);
      assert forall v :: 0 <= v < 64 ==> Symbol(v) != '\r' && Symbol(v) != '\n';
      assert |b| == 3 ==> b[3..] == [];
      assert s[4..] == Encode(tail);
      hide Symbol, Encode;
      FourClean(s, Encode(tail));
    }
  }

  lemma FourClean(s: string, tail: string)
    requires |s| >= 4 && s[4..] == tail && WithoutBreaks(tail) == tail
    requires forall i :: 0 <= i < 4 ==> s[i] != '\r' && s[i] != '\n'
    ensures WithoutBreaks(s) == s
  {
    assert s[3..][1..] == tail && s[2..][1..] == s[3..] && s[1..][1..] == s[2..];
    assert WithoutBreaks(s[3..]) == [s[3]] + tail == s[3..];
    assert WithoutBreaks(s[2..]) == [s[2]] + s[3..] == s[2..];
    assert WithoutBreaks(s[1..]) == [s[1]] + s[2..] == s[1..];
    assert s == [s[0]] + s[1..];
  }

  lemma EncodeIsEmpty(b: Bytes)
    ensures Encode(b) == "" <==> b == []
  {
  }

  lemma Base64RoundTrip(b: Bytes)
    ensures Decode(Encode(b)) == Some(b)
  {
    EncodeHasNoBreaks(b);
    GroupsRoundTrip(b);
  }

  /** The URL-safe alphabet of section 5 of RFC 4648, by code point: letters, digits, minus and underscore. */
  lemma AlphabetIsUrlSafe(v: Sextet)
    ensures Symbol(v) as int ==
              if v < 26 then 65 + v else if v < 52 then 71 + v else if v < 62 then v - 4 else if v == 62 then 45 else 95
  {
  }

  /** The decoder knows these symbols and no others. */
  lemma ValueExactly(c: char, v: Sextet)
    ensures Value(c) == Some(v) <==> c == Symbol(v)
  {
  }

  lemma {:induction false} BreaksVanish(a: string, b: string)
    ensures WithoutBreaks(a + b) == WithoutBreaks(a) + WithoutBreaks(b)
  {
    if a == "" {
      assert a + b == b;
    } else {
      assert (a + b)[1..] == a[1..] + b;
      BreaksVanish(a[1..], b);
    }
  }

  /** Line breaks are skipped wherever they stand, and nothing else is. */
  lemma BreaksAreSkipped(a: string, c: char, b: string)
    ensures c == '\r' || c == '\n' ==> Decode(a + [c] + b) == Decode(a + b)
    ensures c != '\r' && c != '\n' ==> WithoutBreaks([c]) == [c]
  {
    BreaksVanish(a + [c], b);
    BreaksVanish(a, [c]);
    BreaksVanish(a, b);
    assert [c][1..] == [];
    assert WithoutBreaks([c]) == if c == '\r' || c == '\n' then "" else [c];
    assert WithoutBreaks(a) + "" == WithoutBreaks(a);
  }

  /** Test vectors of section 10 of RFC 4648: "f", "fo", "foo". */
  lemma VectorsOfRfc4648()
    ensures Encode([102]) == "Zg==" && Encode([102, 111]) == "Zm8=" && Encode([102, 111, 111]) == "Zm9v"
  {
    var three: Bytes := [102, 111, 111];
    assert three[3..] == [] && Encode(three[3..]) == "";
  }

  // ----------------------------------------------------------- token

  const UNDERSCORE: Byte := 95

  /** The text form of a timestamp: what it prints it reads back, and it contains no underscore. */
  datatype Clock = Clock(format: int -> Bytes, parse: Bytes -> Option<int>)

  ghost predicate Faithful(c: Clock)
  {
    forall t :: c.parse(c.format(t)) == Some(t) && UNDERSCORE !in c.format(t)
  }

  function Tally(t: int): Bytes
  {
    if t >= 0 then [43] + seq(t, _ => 49) else [45] + seq(-t, _ => 49)
  }

  function Untally(b: Bytes): Option<int>
  {
    if b == [] then None else Some(if b[0] == 43 then |b| - 1 else 1 - |b|)
  }

  /** Such text forms exist: a sign and a tally, for one. */
  lemma FaithfulClocksExist()
    ensures exists c :: Faithful(c)
  {
    var c := Clock(Tally, Untally);
    forall t
      ensures c.parse(c.format(t)) == Some(t) && UNDERSCORE !in c.format(t)
    {
      assert c.format(t) == Tally(t) && c.parse(Tally(t)) == Untally(Tally(t));
    }
    assert Faithful(c);
  }

  datatype Cursor = Cursor(time: int, id: Bytes)

  function EncodeToken(c: Clock, cursor: Cursor): string
  {
    Encode(c.format(cursor.time) + [UNDERSCORE] + cursor.id)
  }

  function DecodeToken(c: Clock, token: string): Option<Cursor>
  {
    var decoded := Decode(token);
    if decoded.None? then None
    else
      var parts := Splitting.Split(decoded.value, UNDERSCORE);
      if |parts| != 2 then None
      else
        var time := c.parse(parts[0]);
        if time.None? then None else Some(Cursor(time.value, parts[1]))
  }

  /** A token reads back as the cursor it was made from exactly when the task id has no underscore;
      otherwise it is refused, never misread. A token is never the empty string of the first page. */
  lemma TokenRoundTrip(c: Clock, cursor: Cursor)
    requires Faithful(c)
    ensures DecodeToken(c, EncodeToken(c, cursor)) == if UNDERSCORE in cursor.id then None else Some(cursor)
    ensures EncodeToken(c, cursor) != ""
  {
    hide Encode, Decode, Splitting.SplitFrom;
    var stamp := c.format(cursor.time);
    EncodeIsEmpty(stamp + [UNDERSCORE] + cursor.id);
    Base64RoundTrip(stamp + [UNDERSCORE] + cursor.id);
    Splitting.SplitFromHead(stamp, UNDERSCORE, cursor.id, []);
    Splitting.SplitFromWhole(cursor.id, UNDERSCORE, []);
    assert [] + stamp == stamp && [] + cursor.id == cursor.id;
  }
}
