/** The live preview filter that hides A2UI fence spans across arbitrary chunk
    boundaries, the whole-string reference it must agree with, and the terminal
    splitter that cuts out the first fence. */
module FencePreview {
  import opened Common

  const FENCE_START := "<<<A2UI>>>"
  const FENCE_END := "<<<END_A2UI>>>"

  /** The marker awaited inside or outside a fence. */
  function Marker(inside: bool): (m: string)
    ensures m != ""
  {
    if inside then FENCE_END else FENCE_START
  }

  // ----------------------------------------------------------- searching

  predicate OccursAt(text: string, marker: string, i: int)
  {
    0 <= i <= i + |marker| <= |text| && text[i..i + |marker|] == marker
  }

  function IndexFrom(text: string, marker: string, from: nat): (i: int)
    requires from <= |text|
    ensures i == -1 || (from <= i && OccursAt(text, marker, i))
    ensures forall j :: from <= j && (i == -1 || j < i) ==> !OccursAt(text, marker, j)
    decreases |text| - from
  {
    if OccursAt(text, marker, from) then from
    else if from == |text| then -1
    else IndexFrom(text, marker, from + 1)
  }

  /** First occurrence, or -1. */
  function Index(text: string, marker: string): (i: int)
    ensures i == -1 || (0 <= i && OccursAt(text, marker, i))
    ensures forall j :: 0 <= j && (i == -1 || j < i) ==> !OccursAt(text, marker, j)
  {
    IndexFrom(text, marker, 0)
  }

  /** The last `n` characters begin the marker. */
  predicate Begins(text: string, marker: string, n: int)
  {
    0 <= n <= |text| && text[|text| - n..] <= marker
  }

  /** Length of the longest suffix that could still grow into the marker. */
  ghost predicate LongestPartial(text: string, marker: string, size: nat)
  {
    && Begins(text, marker, size) && (size < |marker| || size == 0)
    && forall n :: size < n < |marker| ==> !Begins(text, marker, n)
  }

  function PartialUpTo(text: string, marker: string, size: nat): (h: nat)
    requires size <= |text| && (size < |marker| || size == 0)
    requires forall n :: size < n < |marker| ==> !Begins(text, marker, n)
    ensures LongestPartial(text, marker, h)
  {
    if size == 0 || Begins(text, marker, size) then size else PartialUpTo(text, marker, size - 1)
  }

  function PartialSize(text: string, marker: string): (h: nat)
    ensures LongestPartial(text, marker, h)
  {
    PartialUpTo(text, marker, if |marker| == 0 then 0 else Min(|marker| - 1, |text|))
  }

  function Partial(text: string, marker: string): (h: string)
    ensures |h| == PartialSize(text, marker) <= |text|
    ensures h <= marker && h == text[|text| - |h|..]
  {
    text[|text| - PartialSize(text, marker)..]
  }

  method PartialMarkerSuffix(text: string, marker: string) returns (h: string)
    ensures h == Partial(text, marker)
  {
    var size := |marker| - 1;
    if |text| < size {
      size := |text|;
    }
    while size > 0
      invariant size <= |text| && size < |marker|
      invariant forall n :: size < n < |marker| ==> !Begins(text, marker, n)
    {
      if text[|text| - size..] <= marker {
        assert LongestPartial(text, marker, size);
        return text[|text| - size..];
      }
      assert !Begins(text, marker, size);
      size := size - 1;
    }
    h := "";
    assert LongestPartial(text, marker, 0);
  }

  // ------------------------------------------------ whole-string meaning

  /** What remains of a complete text once fenced spans, closed or not, are gone. */
  function Show(text: string, inside: bool): string
    decreases |text|
  {
    var i := Index(text, Marker(inside));
    if inside then
      if i < 0 then "" else Show(text[i + |Marker(true)|..], false)
    else
      if i < 0 then text else text[..i] + Show(text[i + |Marker(false)|..], true)
  }

  // ------------------------------------------------------ online filter

  datatype Scanned = Scanned(visible: string, inside: bool, held: string)

  function Scan(inside: bool, pending: string): Scanned
    decreases |pending|
  {
    var i := Index(pending, Marker(inside));
    var held := Partial(pending, Marker(inside));
    if inside then
      if i < 0 then Scanned("", true, held)
      else Scan(false, pending[i + |Marker(true)|..])
    else
      if i < 0 then Scanned(pending[..|pending| - |held|], false, held)
      else
        var rest := Scan(true, pending[i + |Marker(false)|..]);
        rest.(visible := pending[..i] + rest.visible)
  }

  /** One turn of the loop. */
  lemma ScanTurn(inside: bool, pending: string)
    ensures var i := Index(pending, Marker(inside));
            var held := Partial(pending, Marker(inside));
            && (i < 0 ==>
                  Scan(inside, pending)
                  == Scanned(if inside then "" else pending[..|pending| - |held|], inside, held))
            && (i >= 0 ==>
                  var rest := Scan(!inside, pending[i + |Marker(inside)|..]);
                  Scan(inside, pending) == rest.(visible := (if inside then "" else pending[..i]) + rest.visible))
  {
    hide Index, IndexFrom, Partial, PartialSize, PartialUpTo, Marker;
    var i := Index(pending, Marker(inside));
    if i >= 0 && inside {
      var rest := Scan(false, pending[i + |Marker(true)|..]);
      assert "" + rest.visible == rest.visible;
    }
  }

  class Preview {
    var inside: bool
    var held: string

    constructor ()
      ensures !inside && held == ""
    {
      inside, held := false, "";
    }

    method Feed(chunk: string) returns (visible: string)
      modifies this
      ensures Scanned(visible, inside, held) == Scan(old(inside), old(held) + chunk)
    {
      hide Marker, Index, IndexFrom, PartialUpTo, PartialSize, Scan, Partial;
      var pending := held + chunk;
      held := "";
      visible := "";
      ghost var all := Scan(inside, pending);
      while true
        invariant Scan(inside, pending) == all.(visible := Scan(inside, pending).visible)
        invariant all.visible == visible + Scan(inside, pending).visible
        decreases |pending|
      {
        ScanTurn(inside, pending);
        if inside {
          var end := Index(pending, Marker(true));
          if end < 0 {
            held := PartialMarkerSuffix(pending, Marker(true));
            break;
          }
          pending := pending[end + |Marker(true)|..];
          inside := false;
          continue;
        }
        var start := Index(pending, Marker(false));
        if start < 0 {
          var partial := PartialMarkerSuffix(pending, Marker(false));
          visible := visible + pending[..|pending| - |partial|];
          held := partial;
          break;
        }
        visible := visible + pending[..start];
        pending := pending[start + |Marker(false)|..];
        inside := true;
      }
    }

    method Flush() returns (text: string)
      modifies this
      ensures text == FlushText(old(inside), old(held))
      ensures inside == old(inside) && held == if inside then old(held) else ""
    {
      if inside { return ""; }
      text := held;
      held := "";
    }
  }

  function FlushText(inside: bool, held: string): string
  {
    if inside then "" else held
  }

  /** Feeds the chunks in order from a fresh preview. */
  function FeedAll(chunks: seq<string>): Scanned
  {
    if chunks == [] then Scanned("", false, "")
    else
      var before := FeedAll(chunks[..|chunks| - 1]);
      var last := Scan(before.inside, before.held + chunks[|chunks| - 1]);
      last.(visible := before.visible + last.visible)
  }

  function Concat(chunks: seq<string>): string
  {
    if chunks == [] then "" else Concat(chunks[..|chunks| - 1]) + chunks[|chunks| - 1]
  }

  // --------------------------------------------------- chunk invariance

  lemma FirstOccurrence(text: string, marker: string, i: int)
    requires OccursAt(text, marker, i) && forall j :: 0 <= j < i ==> !OccursAt(text, marker, j)
    ensures Index(text, marker) == i
  {
  }

  lemma OccursInFront(text: string, rest: string, marker: string, p: int)
    requires 0 <= p <= p + |marker| <= |text|
    ensures OccursAt(text + rest, marker, p) <==> OccursAt(text, marker, p)
  {
    assert (text + rest)[p..p + |marker|] == text[p..p + |marker|];
  }

  /** Text after a first occurrence does not move it. */
  lemma IndexStays(text: string, rest: string, marker: string)
    requires Index(text, marker) >= 0
    ensures Index(text + rest, marker) == Index(text, marker)
  {
    hide Marker, Index, IndexFrom, PartialUpTo, PartialSize;
    var i := Index(text, marker);
    assert (text + rest)[i..i + |marker|] == text[i..i + |marker|];
    forall j | 0 <= j < i
      ensures !OccursAt(text + rest, marker, j)
    {
      assert (text + rest)[j..j + |marker|] == text[j..j + |marker|];
      assert !OccursAt(text, marker, j);
    }
    FirstOccurrence(text + rest, marker, i);
  }

  /** With no occurrence in `text`, any later one starts inside the held suffix. */
  lemma OccurrenceStartsInHeld(text: string, rest: string, marker: string, p: int)
    requires marker != "" && Index(text, marker) < 0 && OccursAt(text + rest, marker, p)
    ensures p >= |text| - |Partial(text, marker)|
  {
    hide Marker, Index, IndexFrom, PartialUpTo, PartialSize;
    var h := Partial(text, marker);
    if p + |marker| <= |text| {
      OccursInFront(text, rest, marker, p);
    } else if p < |text| {
      var n := |text| - p;
      assert text[p..] == (text + rest)[p..p + |marker|][..n] == marker[..n];
      assert Begins(text, marker, n);
    }
  }

  lemma SuffixOccurs(whole: string, tail: string, marker: string, k: int, p: int)
    requires 0 <= k <= |whole| && whole[k..] == tail && k <= p
    ensures OccursAt(whole, marker, p) <==> OccursAt(tail, marker, p - k)
  {
    if p + |marker| <= |whole| {
      assert whole[k..][p - k..p - k + |marker|] == whole[p..p + |marker|];
    }
  }

  /** So only the held suffix has to be kept to find it. */
  lemma HeldSuffices(text: string, rest: string, marker: string)
    requires marker != "" && Index(text, marker) < 0
    ensures var k := |text| - |Partial(text, marker)|;
            var j := Index(Partial(text, marker) + rest, marker);
            Index(text + rest, marker) == if j < 0 then -1 else k + j
  {
    hide Marker, Index, IndexFrom, PartialUpTo, PartialSize;
    var h := Partial(text, marker);
    var k := |text| - |h|;
    var whole, tail := text + rest, h + rest;
    assert whole[k..] == tail;
    forall p | k <= p
      ensures OccursAt(whole, marker, p) <==> OccursAt(tail, marker, p - k)
    {
      SuffixOccurs(whole, tail, marker, k, p);
    }
    var i, j := Index(whole, marker), Index(tail, marker);
    if i >= 0 {
      OccurrenceStartsInHeld(text, rest, marker, i);
      assert OccursAt(tail, marker, i - k);
    }
    if j >= 0 {
      assert OccursAt(whole, marker, k + j);
    }
  }

  /** What a scan shows, plus what its held text and the rest will show, is what the whole shows. */
  lemma {:induction false} ScanThenRest(inside: bool, pending: string, rest: string)
    ensures var s := Scan(inside, pending);
            Show(pending + rest, inside) == s.visible + Show(s.held + rest, s.inside)
    decreases |pending|
  {
    hide Marker, Index, IndexFrom, PartialUpTo, PartialSize;
    var marker := Marker(inside);
    var i := Index(pending, marker);
    if i >= 0 {
      var after := pending[i + |marker|..];
      ShowAcross(inside, pending, rest);
      ScanThenRest(!inside, after, rest);
      if !inside {
        var s := Scan(true, after);
        Assoc(pending[..i], s.visible, Show(s.held + rest, s.inside));
      }
    } else {
      ShowFromHeld(inside, pending, rest);
    }
  }

  lemma Assoc(a: string, b: string, c: string)
    ensures a + (b + c) == (a + b) + c
  {
  }

  lemma ShowAcross(inside: bool, pending: string, rest: string)
    requires Index(pending, Marker(inside)) >= 0
    ensures var i := Index(pending, Marker(inside));
            var later := Show(pending[i + |Marker(inside)|..] + rest, !inside);
            Show(pending + rest, inside) == if inside then later else pending[..i] + later
  {
    hide Marker, Index, IndexFrom, PartialUpTo, PartialSize;
    var marker := Marker(inside);
    var i := Index(pending, marker);
    IndexStays(pending, rest, marker);
    assert (pending + rest)[i + |marker|..] == pending[i + |marker|..] + rest;
    assert (pending + rest)[..i] == pending[..i];
  }

  /** One turn of the whole-string filter. */
  lemma ShowTurn(text: string, inside: bool)
    ensures var i := Index(text, Marker(inside));
            && (i < 0 ==> Show(text, inside) == if inside then "" else text)
            && (i >= 0 ==>
                  Show(text, inside)
                  == (if inside then "" else text[..i]) + Show(text[i + |Marker(inside)|..], !inside))
  {
    var i, m := Index(text, Marker(inside)), |Marker(inside)|;
    assert i >= 0 ==> i + m <= |text|;
    hide Index, IndexFrom, Marker, OccursAt;
    if i >= 0 && inside {
      assert Show(text, inside) == Show(text[i + m..], false);
      assert "" + Show(text[i + m..], false) == Show(text[i + m..], false);
    } else if i >= 0 {
      assert Show(text, inside) == text[..i] + Show(text[i + m..], true);
    }
  }

  lemma ShowFromHeld(inside: bool, pending: string, rest: string)
    requires Index(pending, Marker(inside)) < 0
    ensures var h := Partial(pending, Marker(inside));
            Show(pending + rest, inside) ==
              (if inside then "" else pending[..|pending| - |h|]) + Show(h + rest, inside)
  {
    hide Marker, Index, IndexFrom, PartialUpTo, PartialSize, LongestPartial, Show;
    var marker := Marker(inside);
    var h := Partial(pending, marker);
    var k := |pending| - |h|;
    HeldSuffices(pending, rest, marker);
    ShowTurn(pending + rest, inside);
    ShowTurn(h + rest, inside);
    HeldSplits(pending, rest, k, Index(h + rest, marker), |marker|);
    if !inside && Index(h + rest, marker) >= 0 {
      var j := Index(h + rest, marker);
      Assoc(pending[..k], (h + rest)[..j], Show((h + rest)[j + |marker|..], true));
    }
  }

  /** Where a text is cut does not matter to what follows. */
  lemma HeldSplits(pending: string, rest: string, k: nat, j: int, m: nat)
    requires k <= |pending| && (j >= 0 ==> j + m <= |pending[k..] + rest|)
    ensures pending + rest == pending[..k] + (pending[k..] + rest)
    ensures j >= 0 ==>
              && (pending + rest)[k + j + m..] == (pending[k..] + rest)[j + m..]
              && (pending + rest)[..k + j] == pending[..k] + (pending[k..] + rest)[..j]
  {
    var whole, tail := pending + rest, pending[k..] + rest;
    assert whole == pending[..k] + tail;
    if j >= 0 {
      assert whole[k + j + m..] == tail[j + m..];
      assert whole[..k + j] == pending[..k] + tail[..j];
    }
  }

  /** What is held is a proper beginning of the marker awaited. */
  lemma {:induction false} HeldIsPartial(inside: bool, pending: string)
    ensures var s := Scan(inside, pending);
            s.held <= Marker(s.inside) && |s.held| < |Marker(s.inside)|
    decreases |pending|
  {
    hide Marker, Index, IndexFrom, PartialUpTo, PartialSize;
    var marker := Marker(inside);
    var i := Index(pending, marker);
    if i >= 0 {
      HeldIsPartial(!inside, pending[i + |marker|..]);
    }
  }

  lemma {:induction false} FeedAllThenRest(chunks: seq<string>, rest: string)
    ensures var s := FeedAll(chunks);
            && Show(Concat(chunks) + rest, false) == s.visible + Show(s.held + rest, s.inside)
            && s.held <= Marker(s.inside) && |s.held| < |Marker(s.inside)|
    decreases |chunks|
  {
    hide Show, Scan;
    if chunks != [] {
      var init, last := chunks[..|chunks| - 1], chunks[|chunks| - 1];
      FeedAllThenRest(init, last + rest);
      var b := FeedAll(init);
      ScanThenRest(b.inside, b.held + last, rest);
      HeldIsPartial(b.inside, b.held + last);
      Assoc(Concat(init), last, rest);
      Assoc(b.held, last, rest);
      var s := Scan(b.inside, b.held + last);
      Assoc(b.visible, s.visible, Show(s.held + rest, s.inside));
    } else {
      assert Concat(chunks) + rest == rest && FeedAll(chunks).held + rest == rest;
      assert "" + Show(rest, false) == Show(rest, false);
    }
  }

  /** A beginning of the awaited marker shows itself outside a fence and nothing inside one. */
  lemma ShowHeld(inside: bool, held: string)
    requires |held| < |Marker(inside)|
    ensures Show(held, inside) == FlushText(inside, held)
  {
    hide Marker, Index, IndexFrom, PartialUpTo, PartialSize;
  }

  /** However the text is cut, what was shown plus the flush is the masked whole text. */
  lemma ChunkInvariance(chunks: seq<string>)
    ensures var s := FeedAll(chunks);
            s.visible + FlushText(s.inside, s.held) == Show(Concat(chunks), false)
  {
    var s := FeedAll(chunks);
    FeedAllThenRest(chunks, "");
    assert Concat(chunks) + "" == Concat(chunks) && s.held + "" == s.held;
    ShowHeld(s.inside, s.held);
  }

  method MaskFences(text: string) returns (masked: string)
    ensures masked == Show(text, false)
  {
    var preview := new Preview();
    var shown := preview.Feed(text);
    var flushed := preview.Flush();
    masked := shown + flushed;
    assert "" + text == text;
    OneChunk(text);
    ChunkInvariance([text]);
  }

  lemma OneChunk(text: string)
    ensures FeedAll([text]) == Scan(false, text) && Concat([text]) == text
  {
    hide Marker, Index, IndexFrom, PartialUpTo, PartialSize;
    assert [text][..0] == [];
    assert FeedAll([]) == Scanned("", false, "");
    assert "" + text == text;
    var s := Scan(false, text);
    assert s.(visible := "" + s.visible) == s;
  }

  // ------------------------------------------------ optimal withholding

  /** Some continuation shows nothing more: silence inside a fence, completing the marker outside. */
  lemma NothingMoreIsPossible(inside: bool, held: string) returns (rest: string)
    requires held <= Marker(inside) && |held| < |Marker(inside)|
    ensures Show(held + rest, inside) == ""
  {
    hide Marker, Index, IndexFrom, PartialUpTo, PartialSize;
    if inside {
      rest := "";
      assert held + rest == held;
      ShowHeld(inside, held);
    } else {
      rest := Marker(false)[|held|..];
      assert held + rest == Marker(false);
      assert OccursAt(Marker(false), Marker(false), 0);
      FirstOccurrence(Marker(false), Marker(false), 0);
      assert Marker(false)[..0] == "" && Marker(false)[|Marker(false)|..] == "";
      ShowHeld(true, "");
    }
  }

  /** A beginning of the final text whatever follows. */
  ghost predicate CertainFor(text: string, p: string)
  {
    forall rest :: p <= Show(text + rest, false)
  }

  /** After any chunks, the text shown is a prefix of the final text of every continuation, and no longer text is. */
  lemma OptimalWithholding(chunks: seq<string>)
    ensures CertainFor(Concat(chunks), FeedAll(chunks).visible)
    ensures forall p :: CertainFor(Concat(chunks), p) ==> p <= FeedAll(chunks).visible
  {
    var s := FeedAll(chunks);
    forall rest
      ensures s.visible <= Show(Concat(chunks) + rest, false)
    {
      FeedAllThenRest(chunks, rest);
    }
    FeedAllThenRest(chunks, "");
    var silent := NothingMoreIsPossible(s.inside, s.held);
    FeedAllThenRest(chunks, silent);
    assert Show(Concat(chunks) + silent, false) == s.visible;
  }

  // ------------------------------------------------- terminal splitting

  /** Start of the first fence and the position just after its end marker. */
  function Locate(full: string): (r: Option<(nat, nat)>)
    ensures r.Some? ==> r.value.0 + |Marker(false)| + |Marker(true)| <= r.value.1 <= |full|
  {
    var start := Index(full, Marker(false));
    if start < 0 then None
    else
      var afterStart := start + |Marker(false)|;
      var end := Index(full[afterStart..], Marker(true));
      if end < 0 then None else Some((start, afterStart + end + |Marker(true)|))
  }

  predicate Blank(c: char)
  {
    c == ' ' || c == '\t' || c == '\r' || c == '\n'
  }

  function TrimRight(s: string): string
  {
    if s != "" && Blank(s[|s| - 1]) then TrimRight(s[..|s| - 1]) else s
  }

  function TrimLeft(s: string): string
  {
    if s != "" && Blank(s[0]) then TrimLeft(s[1..]) else s
  }

  /** Exactly the spaces, tabs, carriage returns and line feeds at the front go. */
  lemma {:induction false} TrimLeftExactly(s: string) returns (n: nat)
    ensures n <= |s| && TrimLeft(s) == s[n..]
    ensures forall i :: 0 <= i < n ==> s[i] as int in {32, 9, 13, 10}
    ensures n < |s| ==> s[n] as int !in {32, 9, 13, 10}
  {
    n := 0;
    if s != "" && Blank(s[0]) {
      var m := TrimLeftExactly(s[1..]);
      n := m + 1;
      assert s[1..][m..] == s[n..];
      assert forall i :: 1 <= i < n ==> s[i] == s[1..][i - 1];
    } else {
      assert s[0..] == s;
    }
  }

  /** And at the back. */
  lemma {:induction false} TrimRightExactly(s: string) returns (n: nat)
    ensures n <= |s| && TrimRight(s) == s[..n]
    ensures forall i :: n <= i < |s| ==> s[i] as int in {32, 9, 13, 10}
    ensures n > 0 ==> s[n - 1] as int !in {32, 9, 13, 10}
    decreases |s|
  {
    n := |s|;
    if s != "" && Blank(s[n - 1]) {
      var t := s[..n - 1];
      var m := TrimRightExactly(t);
      assert t[..m] == s[..m] && forall i :: 0 <= i < |t| ==> t[i] == s[i];
      n := m;
    } else {
      assert s[..n] == s;
    }
  }

  /** The outer text handed on by the terminal splitter. */
  function OuterText(full: string): string
  {
    match Locate(full)
    case None => full
    case Some((start, after)) => Joined(TrimRight(full[..start]), TrimLeft(full[after..]))
  }

  function Joined(left: string, right: string): string
  {
    if left != "" && right != "" then left + "\n" + right else if left != "" then left else right
  }

  predicate Truncated(full: string)
  {
    match Locate(full)
    case None => false
    case Some((_, after)) => Index(full[after..], Marker(false)) >= 0
  }

  /** From its start marker to just before its end marker is complete, the first fence keeps the preview silent. */
  lemma InsideFirstFence(full: string, j: nat)
    requires Locate(full).Some?
    requires Locate(full).value.0 + |Marker(false)| <= j < Locate(full).value.1
    ensures Scan(false, full[..j]).inside && Scan(false, full[..j]).visible == full[..Locate(full).value.0]
  {
    hide Marker, Index, IndexFrom, PartialUpTo, PartialSize;
    var (start, after) := Locate(full).value;
    var body := start + |Marker(false)|;
    PrefixIndex(full, j, Marker(false));
    var inner := full[body..];
    var part := inner[..j - body];
    assert full[..j][body..] == part;
    if Index(part, Marker(true)) >= 0 {
      assert part + inner[j - body..] == inner;
      IndexStays(part, inner[j - body..], Marker(true));
    }
    assert full[..j][..start] == full[..start];
    assert full[..start] + "" == full[..start];
  }

  lemma ShowAfterFirstFence(full: string)
    requires Locate(full).Some?
    ensures var (start, after) := Locate(full).value;
            Show(full, false) == full[..start] + Show(full[after..], false)
  {
    hide Marker, Index, IndexFrom, PartialUpTo, PartialSize;
    var (start, after) := Locate(full).value;
    var inner := full[start + |Marker(false)|..];
    assert inner[after - start - |Marker(false)|..] == full[after..];
  }

  lemma ScanEmpty()
    ensures Scan(false, "") == Scanned("", false, "")
  {
    hide Marker, Index, IndexFrom, PartialUpTo, PartialSize;
    assert !OccursAt("", Marker(false), Index("", Marker(false)));
  }

  lemma ScanFound(inside: bool, pending: string)
    requires Index(pending, Marker(inside)) >= 0
    ensures var i := Index(pending, Marker(inside));
            var rest := Scan(!inside, pending[i + |Marker(inside)|..]);
            Scan(inside, pending) == if inside then rest else rest.(visible := pending[..i] + rest.visible)
  {
    hide Marker, Index, IndexFrom, PartialUpTo, PartialSize;
  }

  lemma ScanToFenceEnd(text: string, start: nat, end: nat)
    requires Index(text, Marker(false)) == start
    requires Index(text[start + |Marker(false)|..], Marker(true)) == end
    requires |text| == start + |Marker(false)| + end + |Marker(true)|
    ensures Scan(false, text) == Scanned(text[..start], false, "")
  {
    hide Marker, Index, IndexFrom, PartialUpTo, PartialSize, Scan;
    var part := text[start + |Marker(false)|..];
    assert part[end + |Marker(true)|..] == "";
    ScanEmpty();
    ScanFound(true, part);
    ScanFound(false, text);
    assert text[..start] + "" == text[..start];
  }

  lemma ScanAfterFirstFence(full: string)
    requires Locate(full).Some?
    ensures var (start, after) := Locate(full).value;
            Scan(false, full[..after]) == Scanned(full[..start], false, "")
  {
    hide Marker, Index, IndexFrom, PartialUpTo, PartialSize, Scan;
    var (start, after) := Locate(full).value;
    var body := start + |Marker(false)|;
    var inner := full[body..];
    PrefixIndex(full, after, Marker(false));
    PrefixIndex(inner, after - body, Marker(true));
    assert full[..after][body..] == inner[..after - body] && full[..after][..start] == full[..start];
    ScanToFenceEnd(full[..after], start, Index(inner, Marker(true)));
  }

  /** The span the splitter cuts is the first span the preview hides: the preview has shown exactly
      the text before it, enters the fence with its start marker and leaves it with its end marker. */
  lemma SplitCutsTheFirstHiddenSpan(full: string)
    requires Locate(full).Some?
    ensures var (start, after) := Locate(full).value;
            && Show(full, false) == full[..start] + Show(full[after..], false)
            && Scan(false, full[..after]) == Scanned(full[..start], false, "")
            && (forall j :: start + |Marker(false)| <= j < after ==>
                  Scan(false, full[..j]).inside && Scan(false, full[..j]).visible == full[..start])
  {
    hide Marker, Index, IndexFrom, PartialUpTo, PartialSize, Show, Scan;
    ShowAfterFirstFence(full);
    ScanAfterFirstFence(full);
    var (start, after) := Locate(full).value;
    forall j | start + |Marker(false)| <= j < after
      ensures Scan(false, full[..j]).inside && Scan(false, full[..j]).visible == full[..start]
    {
      InsideFirstFence(full, j);
    }
  }

  lemma PrefixIndex(text: string, j: nat, marker: string)
    requires j <= |text| && Index(text, marker) >= 0 && Index(text, marker) + |marker| <= j
    ensures Index(text[..j], marker) == Index(text, marker)
  {
    hide Marker, Index, IndexFrom, PartialUpTo, PartialSize;
    var i := Index(text, marker);
    assert text[..j][i..i + |marker|] == text[i..i + |marker|];
    forall k | 0 <= k < i
      ensures !OccursAt(text[..j], marker, k)
    {
      assert !OccursAt(text, marker, k);
      if k + |marker| <= j {
        assert text[..j][k..k + |marker|] == text[k..k + |marker|];
      }
    }
    FirstOccurrence(text[..j], marker, i);
  }

  /** An unclosed fence: the splitter keeps the raw text, the preview stops where the fence begins. */
  lemma UnclosedFence(full: string)
    requires Locate(full).None?
    ensures OuterText(full) == full
    ensures Show(full, false) ==
              if Index(full, Marker(false)) < 0 then full else full[..Index(full, Marker(false))]
  {
    hide Marker, Index, IndexFrom, PartialUpTo, PartialSize;
    var start := Index(full, Marker(false));
    if start >= 0 {
      assert full[..start] + "" == full[..start];
    }
  }

  /** What hiding means, on the text itself: from the first start marker to the end marker that follows first, a span
      goes, and the rest is treated alike; without a start marker all is shown, without an end marker nothing more. */
  lemma ShownText(before: string, inner: string, rest: string)
    requires forall i :: 0 <= i < |before| ==> !OccursAt(before + "<<<A2UI>>>" + rest, "<<<A2UI>>>", i)
    requires forall i :: 0 <= i < |inner| ==> !OccursAt(inner + "<<<END_A2UI>>>" + rest, "<<<END_A2UI>>>", i)
    ensures Show(before + "<<<A2UI>>>" + rest, false) == before + Show(rest, true)
    ensures Show(inner + "<<<END_A2UI>>>" + rest, true) == Show(rest, false)
    ensures (forall i :: !OccursAt(rest, "<<<A2UI>>>", i)) ==> Show(rest, false) == rest
    ensures (forall i :: !OccursAt(rest, "<<<END_A2UI>>>", i)) ==> Show(rest, true) == ""
  {
    assert Marker(false) == "<<<A2UI>>>" && Marker(true) == "<<<END_A2UI>>>";
    hide Marker, Index, IndexFrom, Show;
    CutAt(before, Marker(false), rest);
    ShowTurn(before + Marker(false) + rest, false);
    CutAt(inner, Marker(true), rest);
    ShowTurn(inner + Marker(true) + rest, true);
    ShowTurn(rest, false);
    ShowTurn(rest, true);
    assert "" + Show(rest, false) == Show(rest, false);
  }

  lemma CutAt(front: string, marker: string, rest: string)
    requires forall i :: 0 <= i < |front| ==> !OccursAt(front + marker + rest, marker, i)
    ensures var text := front + marker + rest;
            Index(text, marker) == |front| && text[..|front|] == front && text[|front| + |marker|..] == rest
  {
    hide Index, IndexFrom;
    var text := front + marker + rest;
    assert text[|front|..|front| + |marker|] == marker;
    FirstOccurrence(text, marker, |front|);
  }

  // ------------------------------------- preview and splitter compared

  /** The text without its blanks. */
  function Solid(s: string): string
  {
    if s == "" then "" else (if Blank(s[0]) then "" else [s[0]]) + Solid(s[1..])
  }

  lemma {:induction false} SolidOfBoth(a: string, b: string)
    ensures Solid(a + b) == Solid(a) + Solid(b)
  {
    if a == "" {
      assert a + b == b;
    } else {
      assert (a + b)[1..] == a[1..] + b;
      SolidOfBoth(a[1..], b);
    }
  }

  lemma {:induction false} SolidOfTrimLeft(s: string)
    ensures Solid(TrimLeft(s)) == Solid(s)
  {
    if s != "" && Blank(s[0]) {
      SolidOfTrimLeft(s[1..]);
    }
  }

  lemma {:induction false} SolidOfTrimRight(s: string)
    ensures Solid(TrimRight(s)) == Solid(s)
    decreases |s|
  {
    var n := |s| - 1;
    if s != "" && Blank(s[n]) {
      SolidOfTrimRight(s[..n]);
      assert s == s[..n] + [s[n]];
      SolidOfBoth(s[..n], [s[n]]);
      assert Solid([s[n]]) == "";
    }
  }

  /** Apart from blanks the splitter keeps everything but the fence it cuts. */
  lemma SolidOuterText(full: string)
    requires Locate(full).Some?
    ensures var (start, after) := Locate(full).value;
            Solid(OuterText(full)) == Solid(full[..start]) + Solid(full[after..])
  {
    hide Locate, Solid, TrimLeft, TrimRight, Joined;
    var (start, after) := Locate(full).value;
    SolidOfTrimRight(full[..start]);
    SolidOfTrimLeft(full[after..]);
    SolidOfJoined(TrimRight(full[..start]), TrimLeft(full[after..]));
  }

  lemma SolidOfJoined(left: string, right: string)
    ensures Solid(Joined(left, right)) == Solid(left) + Solid(right)
  {
    hide Solid;
    BlanksAreNotSolid();
    if left != "" && right != "" {
      SolidOfBoth(left + "\n", right);
      SolidOfBoth(left, "\n");
      assert Solid(left) + "" == Solid(left);
    } else {
      assert Solid(left) + "" == Solid(left) && "" + Solid(right) == Solid(right);
    }
  }

  lemma BlanksAreNotSolid()
    ensures Solid("") == "" && Solid("\n") == ""
  {
    assert Solid("\n") == "" + Solid("\n"[1..]);
  }

  /** Markers are made of characters that are not blank. */
  lemma MarkersAreSolid(inside: bool)
    ensures |Solid(Marker(inside))| > 0
  {
    assert !Blank(Marker(inside)[0]);
  }

  /** A text cut around a marker. */
  lemma SolidAround(text: string, inside: bool)
    requires Index(text, Marker(inside)) >= 0
    ensures var i := Index(text, Marker(inside));
            var rest := text[i + |Marker(inside)|..];
            |Solid(text)| == |Solid(text[..i])| + |Solid(Marker(inside))| + |Solid(rest)|
  {
    hide Marker, Index, IndexFrom, Solid;
    var i, marker := Index(text, Marker(inside)), Marker(inside);
    var rest := text[i + |marker|..];
    assert text == text[..i] + (marker + rest);
    SolidOfBoth(text[..i], marker + rest);
    SolidOfBoth(marker, rest);
  }

  /** The preview never shows more than there is, and less as soon as it hides anything. */
  lemma {:induction false} ShowShrinks(text: string, inside: bool)
    ensures |Solid(Show(text, inside))| <= |Solid(text)|
    ensures Index(text, Marker(inside)) >= 0 ==> |Solid(Show(text, inside))| < |Solid(text)|
    decreases |text|
  {
    hide Marker, Index, IndexFrom, Show, Solid;
    BlanksAreNotSolid();
    ShowTurn(text, inside);
    var i := Index(text, Marker(inside));
    if i >= 0 {
      var rest := text[i + |Marker(inside)|..];
      ShowShrinks(rest, !inside);
      SolidAround(text, inside);
      MarkersAreSolid(inside);
      SolidOfBoth(if inside then "" else text[..i], Show(rest, !inside));
    }
  }

  /** With a single closed fence the preview shows what surrounds it, and the splitter keeps the same up to blanks. */
  lemma SingleFence(full: string)
    requires Locate(full).Some? && !Truncated(full)
    ensures var (start, after) := Locate(full).value; Show(full, false) == full[..start] + full[after..]
    ensures Solid(OuterText(full)) == Solid(Show(full, false))
  {
    hide Marker, Index, IndexFrom, PartialUpTo, PartialSize, Solid;
    SplitCutsTheFirstHiddenSpan(full);
    SolidOuterText(full);
    var (start, after) := Locate(full).value;
    SolidOfBoth(full[..start], full[after..]);
  }

  /** A start marker the splitter leaves in the text: unclosed, or after the first closed fence. */
  predicate LeavesMarker(full: string)
  {
    if Locate(full).None? then Index(full, Marker(false)) >= 0 else Truncated(full)
  }

  /** For every text, the finished preview and the splitter keep the same characters, blanks aside, exactly when the
      splitter leaves no start marker behind. */
  lemma SplitterAgreesExactly(full: string)
    ensures Solid(OuterText(full)) == Solid(Show(full, false)) <==> !LeavesMarker(full)
  {
    hide Marker, Index, IndexFrom, PartialUpTo, PartialSize, Solid;
    if Locate(full).None? {
      ShowShrinks(full, false);
      UnclosedFence(full);
    } else if Truncated(full) {
      var (start, after) := Locate(full).value;
      ShowAfterFirstFence(full);
      SolidOuterText(full);
      SolidOfBoth(full[..start], Show(full[after..], false));
      ShowShrinks(full[after..], false);
    } else {
      SingleFence(full);
    }
  }
}
