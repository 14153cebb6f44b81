/** Printing and resolving JSON Pointers (sections 3 and 4 of RFC 6901). */
module JsonPointer {
  import opened Common
  import Splitting

  datatype Json =
    | Null
    | Bool(b: bool)
    | Number(text: string)
    | Text(s: string)
    | Array(items: seq<Json>)
    | Object(fields: map<string, Json>)

  // -------------------------------------------------------- replacing

  /** Every non-overlapping occurrence of `pattern`, left to right. */
  function ReplaceAll(s: string, pattern: string, replacement: string): string
    requires pattern != ""
  {
    if |s| < |pattern| then s
    else if pattern <= s then replacement + ReplaceAll(s[|pattern|..], pattern, replacement)
    else [s[0]] + ReplaceAll(s[1..], pattern, replacement)
  }

  function Escape(s: string): string
  {
    ReplaceAll(ReplaceAll(s, "~", "~0"), "/", "~1")
  }

  function Unescape(s: string): string
  {
    ReplaceAll(ReplaceAll(s, "~1", "/"), "~0", "~")
  }

  /** Tildes escaped, slashes left. */
  function Tildes(s: string): string
  {
    if s == "" then "" else (if s[0] == '~' then "~0" else [s[0]]) + Tildes(s[1..])
  }

  /** Escaping, one character at a time. */
  function Escaped(s: string): string
  {
    if s == "" then ""
    else (if s[0] == '~' then "~0" else if s[0] == '/' then "~1" else [s[0]]) + Escaped(s[1..])
  }

  lemma {:induction false} FirstPass(s: string)
    ensures ReplaceAll(s, "~", "~0") == Tildes(s)
  {
    if s != "" {
      FirstPass(s[1..]);
    }
  }

  lemma {:induction false} SecondPass(s: string)
    ensures ReplaceAll(Tildes(s), "/", "~1") == Escaped(s)
  {
    if s != "" {
      SecondPass(s[1..]);
      var t := Tildes(s);
      if s[0] == '~' {
        assert t[1..][1..] == Tildes(s[1..]) && t[1..][0] == '0';
        assert ReplaceAll(t[1..], "/", "~1") == "0" + Escaped(s[1..]);
      } else if s[0] == '/' {
        assert "/" <= t && t[1..] == Tildes(s[1..]);
      } else {
        assert t[1..] == Tildes(s[1..]) && t[0] != "/"[0];
        SkipOne(t, "/", "~1");
      }
    }
  }

  lemma EscapeIsCharwise(s: string)
    ensures Escape(s) == Escaped(s)
  {
    FirstPass(s);
    SecondPass(s);
  }

  lemma {:induction false} UndoSlashes(s: string)
    ensures ReplaceAll(Escaped(s), "~1", "/") == Tildes(s)
  {
    if s != "" {
      UndoSlashes(s[1..]);
      var rest, t := Escaped(s[1..]), Escaped(s);
      if s[0] == '~' {
        assert t == "~0" + rest && t[1..] == "0" + rest && t[1..][1..] == rest;
        assert !("~1" <= t) && !("~1" <= t[1..]) by { assert t[1] == '0' && t[1..][0] == '0'; }
        SkipOne("0" + rest, "~1", "/");
      } else if s[0] == '/' {
        assert t[2..] == rest && "~1" <= t;
      } else {
        assert t[1..] == rest && t[0] == s[0] != "~1"[0];
        SkipOne(t, "~1", "/");
      }
    }
  }

  lemma {:induction false} UndoTildes(s: string)
    ensures ReplaceAll(Tildes(s), "~0", "~") == s
  {
    if s != "" {
      UndoTildes(s[1..]);
      var rest, t := Tildes(s[1..]), Tildes(s);
      if s[0] == '~' {
        assert t[2..] == rest && "~0" <= t;
      } else {
        assert t[1..] == rest && t[0] == s[0] != "~0"[0];
        SkipOne(t, "~0", "~");
      }
    }
  }

  lemma SkipOne(t: string, pattern: string, replacement: string)
    requires t != "" && pattern != "" && !(pattern <= t)
    ensures ReplaceAll(t, pattern, replacement) == [t[0]] + ReplaceAll(t[1..], pattern, replacement)
  {
    if |t| < |pattern| {
      assert ReplaceAll(t[1..], pattern, replacement) == t[1..];
    }
  }

  /** Unescaping undoes escaping. */
  lemma UnescapeUndoesEscape(s: string)
    ensures Unescape(Escape(s)) == s
  {
    EscapeIsCharwise(s);
    UndoSlashes(s);
    UndoTildes(s);
  }

  lemma {:induction false} EscapedHasNoSlash(s: string)
    ensures '/' !in Escaped(s)
  {
    if s != "" {
      EscapedHasNoSlash(s[1..]);
    }
  }

  // --------------------------------------------------------- integers

  function Digit(d: nat): char
    requires d < 10
  {
    '0' + d as char
  }

  function Itoa(n: nat): string
  {
    if n < 10 then [Digit(n)] else Itoa(n / 10) + [Digit(n % 10)]
  }

  predicate IsDigit(c: char)
  {
    '0' <= c <= '9'
  }

  function Digits(s: string): Option<nat>
  {
    if s == "" then Some(0)
    else
      var c, front := s[|s| - 1], Digits(s[..|s| - 1]);
      if !IsDigit(c) || front.None? then None else Some(front.value * 10 + (c as int - '0' as int))
  }

  /** An optional sign and at least one digit; leading zeros are accepted. */
  function Atoi(s: string): Option<int>
  {
    var body := if s != "" && (s[0] == '-' || s[0] == '+') then s[1..] else s;
    if body == "" || Digits(body).None? then None
    else
      var n: int := Digits(body).value;
      Some(if s[0] == '-' then -n else n)
  }

  lemma {:induction false} DigitsOfItoa(n: nat)
    ensures Digits(Itoa(n)) == Some(n) && Itoa(n) != "" && IsDigit(Itoa(n)[0])
  {
    if n < 10 {
      assert Itoa(n)[..0] == "";
    } else {
      DigitsOfItoa(n / 10);
      var s := Itoa(n);
      assert s[..|s| - 1] == Itoa(n / 10);
    }
  }

  lemma AtoiUndoesItoa(n: nat)
    ensures Atoi(Itoa(n)) == Some(n)
  {
    DigitsOfItoa(n);
  }

  lemma {:induction false} DigitsExactly(s: string)
    ensures Digits(s).Some? <==> forall i :: 0 <= i < |s| ==> 48 <= s[i] as int <= 57
    decreases |s|
  {
    if s != "" {
      var n := |s| - 1;
      DigitsExactly(s[..n]);
      assert s == s[..n] + [s[n]];
    }
  }

  /** The text after an optional plus or minus sign. */
  function Unsigned(s: string): string
  {
    if s != "" && (s[0] as int == 43 || s[0] as int == 45) then s[1..] else s
  }

  /** What is read as a number: an optional sign and one or more digits. */
  lemma AtoiExactly(s: string)
    ensures Atoi(s).Some? <==>
            Unsigned(s) != "" && forall i :: 0 <= i < |Unsigned(s)| ==> 48 <= Unsigned(s)[i] as int <= 57
  {
    DigitsExactly(Unsigned(s));
    hide Digits;
  }

  lemma SignsAreRead(n: nat)
    ensures Atoi("+" + Itoa(n)) == Some(n)
    ensures var m: int := n; Atoi("-" + Itoa(n)) == Some(-m)
  {
    hide Itoa, Digits;
    DigitsOfItoa(n);
    var plus, minus := "+" + Itoa(n), "-" + Itoa(n);
    assert plus[1..] == Itoa(n) && minus[1..] == Itoa(n);
  }

  // --------------------------------------------------------- printing

  datatype Segment = Key(name: string) | Index(position: nat)

  function Shown(seg: Segment): string
  {
    match seg
    case Key(name) => name
    case Index(i) => Itoa(i)
  }

  function Print(path: seq<Segment>): string
  {
    if path == [] then "" else Print(path[..|path| - 1]) + "/" + Escape(Shown(path[|path| - 1]))
  }

  method PointerAppend(pointer: string, segments: seq<Segment>) returns (r: string)
    ensures r == pointer + Print(segments)
  {
    r := pointer;
    for i := 0 to |segments|
      invariant r == pointer + Print(segments[..i])
    {
      assert segments[..i + 1][..i] == segments[..i];
      r := r + "/";
      r := r + Escape(Shown(segments[i]));
    }
    assert segments[..|segments|] == segments;
  }

  // -------------------------------------------------------- resolving

  function Child(node: Json, segment: string): Option<Json>
  {
    match node
    case Object(fields) => if segment in fields then Some(fields[segment]) else None
    case Array(items) =>
      var i := Atoi(segment);
      if i.None? || i.value < 0 || i.value >= |items| then None else Some(items[i.value])
    case _ => None
  }

  /** Follows the raw segments, unescaping each. */
  function Follow(node: Json, segments: seq<string>): Option<Json>
  {
    if segments == [] then Some(node)
    else
      var next := Child(node, Unescape(segments[0]));
      if next.None? then None else Follow(next.value, segments[1..])
  }

  function Resolution(root: Json, pointer: string): Option<Json>
  {
    if pointer == "" || pointer == "/" then (if root == Null then None else Some(root))
    else if pointer[0] != '/' then None
    else Follow(root, Splitting.Split(pointer[1..], '/'))
  }

  method ResolveJsonPointer(root: Json, pointer: string) returns (r: Option<Json>)
    ensures r == Resolution(root, pointer)
  {
    if pointer == "" || pointer == "/" {
      return if root == Null then None else Some(root);
    }
    if pointer[0] != '/' { return None; }
    var node := root;
    var segments := Splitting.Split(pointer[1..], '/');
    for i := 0 to |segments|
      invariant Follow(root, segments) == Follow(node, segments[i..])
    {
      assert segments[i..][1..] == segments[i + 1..];
      var segment := Unescape(segments[i]);
      match node {
        case Object(fields) =>
          if segment !in fields { return None; }
          node := fields[segment];
        case Array(items) =>
          var index := Atoi(segment);
          if index.None? || index.value < 0 || index.value >= |items| { return None; }
          node := items[index.value];
        case _ => return None;
      }
    }
    return Some(node);
  }

  // -------------------------------------------------------- round trip

  /** The node a path leads to, keys in objects and positions in arrays. */
  function At(node: Json, path: seq<Segment>): Option<Json>
  {
    if path == [] then Some(node)
    else
      match (node, path[0])
      case (Object(fields), Key(name)) => if name in fields then At(fields[name], path[1..]) else None
      case (Array(items), Index(i)) => if i < |items| then At(items[i], path[1..]) else None
      case _ => None
  }

  function EscapedPath(path: seq<Segment>): seq<string>
  {
    seq(|path|, i requires 0 <= i < |path| => Escape(Shown(path[i])))
  }

  lemma {:induction false} PrintIsJoin(path: seq<Segment>)
    requires path != []
    ensures Print(path) == "/" + Splitting.Join(EscapedPath(path), '/')
    decreases |path|
  {
    hide Escape, Shown, Splitting.Join, EscapedPath, Print;
    var n := |path| - 1;
    var last := Escape(Shown(path[n]));
    PrintLast(path);
    EscapedLast(path);
    if n == 0 {
      Splitting.JoinOne(last, '/');
    } else {
      PrintIsJoin(path[..n]);
      var front := Splitting.Join(EscapedPath(path[..n]), '/');
      JoinSnoc(EscapedPath(path[..n]), last);
      SlashFront(front, last);
    }
  }

  lemma PrintLast(path: seq<Segment>)
    requires path != []
    ensures var n, last := |path| - 1, Escape(Shown(path[|path| - 1]));
            Print(path) == if n == 0 then "/" + last else Print(path[..n]) + "/" + last
  {
    hide Escape, Shown;
    var n := |path| - 1;
    if n == 0 {
      assert path[..0] == [] && Print(path[..0]) == "";
      assert "" + "/" == "/";
    }
  }

  lemma EscapedLast(path: seq<Segment>)
    requires path != []
    ensures var n, last := |path| - 1, Escape(Shown(path[|path| - 1]));
            && |EscapedPath(path)| == |path|
            && EscapedPath(path) == if n == 0 then [last] else EscapedPath(path[..n]) + [last]
    ensures |path| > 1 ==> |EscapedPath(path[..|path| - 1])| >= 1
  {
    hide Escape, Shown;
  }

  lemma SlashFront(front: string, last: string)
    ensures "/" + front + "/" + last == "/" + (front + "/" + last)
  {
    assert "/" + front + "/" + last == "/" + (front + "/" + last);
  }

  lemma {:induction false} JoinSnoc(parts: seq<string>, last: string)
    requires |parts| >= 1
    ensures Splitting.Join(parts + [last], '/') == Splitting.Join(parts, '/') + "/" + last
  {
    if |parts| > 1 {
      JoinSnoc(parts[1..], last);
      assert (parts + [last])[1..] == parts[1..] + [last];
    } else {
      assert (parts + [last])[1..] == [last];
    }
  }

  lemma {:induction false} FollowIsAt(node: Json, path: seq<Segment>, v: Json)
    requires At(node, path) == Some(v)
    ensures Follow(node, EscapedPath(path)) == Some(v)
    decreases |path|
  {
    if path != [] {
      hide Escape, Unescape, Atoi, Itoa;
      var segments := EscapedPath(path);
      assert segments[1..] == EscapedPath(path[1..]);
      UnescapeUndoesEscape(Shown(path[0]));
      if path[0].Index? { AtoiUndoesItoa(path[0].position); }
      var next := Child(node, Unescape(segments[0])).value;
      FollowIsAt(next, path[1..], v);
    }
  }

  /** The pointer printed from a path is not the bare slash unless the path is the single empty key. */
  lemma BareSlash(path: seq<Segment>)
    ensures Print(path) == "" <==> path == []
    ensures Print(path) == "/" <==> path == [Key("")]
  {
    if path != [] {
      var n := |path| - 1;
      var last := Shown(path[n]);
      EscapeIsCharwise(last);
      assert Escape(last) == "" <==> last == "";
      hide Escape;
      if path[n].Index? { DigitsOfItoa(path[n].position); }
      if n > 0 {
        assert Print(path[..n]) != "" by { assert path[..n] != []; }
        assert |Print(path)| >= 2;
      } else {
        assert path[..0] == [] && path == [path[0]];
      }
    }
  }

  /** Resolving the pointer printed from a valid path reaches the node at that path, with exactly two
      exceptions: the single empty key, which prints as the bare slash that means the root here, and the
      empty path at a null root, which reports not found. */
  lemma PrintedPointerResolves(root: Json, path: seq<Segment>, v: Json)
    requires At(root, path) == Some(v)
    ensures Resolution(root, Print(path)) == Some(v) <==> path != [Key("")] && !(path == [] && root == Null)
  {
    BareSlash(path);
    if path != [] && path != [Key("")] {
      PrintedSplits(path);
      FollowIsAt(root, path, v);
    } else if path == [Key("")] {
      assert root.fields[""] == v;
      NoNodeInsideItself(root, "");
    }
  }

  lemma NoNodeInsideItself(root: Json, k: string)
    requires root.Object? && k in root.fields
    ensures root.fields[k] != root
  {
  }

  /** The path leaves the tree: a key that is missing, a position past the end, or a step into a plain value. */
  predicate Leaves(node: Json, path: seq<Segment>)
  {
    && path != []
    && match node
       case Object(fields) =>
         path[0].Key? && (path[0].name !in fields || Leaves(fields[path[0].name], path[1..]))
       case Array(items) =>
         path[0].Index? && (path[0].position >= |items| || Leaves(items[path[0].position], path[1..]))
       case _ => true
  }

  lemma {:induction false} FollowFails(node: Json, path: seq<Segment>)
    requires Leaves(node, path)
    ensures Follow(node, EscapedPath(path)) == None
    decreases |path|
  {
    hide Escape, Unescape, Atoi, Itoa;
    var segments := EscapedPath(path);
    assert segments[1..] == EscapedPath(path[1..]);
    UnescapeUndoesEscape(Shown(path[0]));
    if path[0].Index? { AtoiUndoesItoa(path[0].position); }
    var next := Child(node, Unescape(segments[0]));
    if next.Some? {
      FollowFails(next.value, path[1..]);
    }
  }

  /** A path that leaves the tree resolves to nothing, and so does a pointer without its leading slash. */
  lemma StrayPointersFail(root: Json, path: seq<Segment>, pointer: string)
    ensures Leaves(root, path) && path != [Key("")] ==> Resolution(root, Print(path)) == None
    ensures pointer != "" && pointer[0] != '/' ==> Resolution(root, pointer) == None
  {
    if Leaves(root, path) && path != [Key("")] {
      BareSlash(path);
      PrintedSplits(path);
      FollowFails(root, path);
    }
  }

  /** Taking off the slash and splitting gives the escaped segments back. */
  lemma PrintedSplits(path: seq<Segment>)
    requires path != []
    ensures Print(path) != "" && Print(path)[0] == '/'
    ensures Splitting.Split(Print(path)[1..], '/') == EscapedPath(path)
  {
    PrintIsJoin(path);
    var parts := EscapedPath(path);
    forall i | 0 <= i < |parts|
      ensures '/' !in parts[i]
    {
      EscapeIsCharwise(Shown(path[i]));
      EscapedHasNoSlash(Shown(path[i]));
    }
    Splitting.SplitOfJoin(parts, '/');
    assert Print(path)[1..] == Splitting.Join(parts, '/');
  }

  /** The escapes of section 3 of RFC 6901. */
  lemma EscapesOfRfc6901()
    ensures Escape("~") == "~0" && Escape("/") == "~1" && Escape("a/b~c") == "a~1b~0c"
  {
    EscapeIsCharwise("~");
    EscapeIsCharwise("/");
    EscapeIsCharwise("a/b~c");
    var s := "a/b~c";
    assert s[1..] == "/b~c" && s[1..][1..] == "b~c" && s[1..][1..][1..] == "~c" && s[1..][1..][1..][1..] == "c";
    assert Escaped("c") == "c" && Escaped("~c") == "~0c" && Escaped("b~c") == "b~0c" && Escaped("/b~c") == "~1b~0c";
  }

  /** Both exceptions occur: the pointer to the empty key of this object finds the object instead of the null in it,
      and the pointer to a null document finds nothing. */
  lemma ExceptionsOccur()
    ensures var root := Object(map["" := Null]);
            && At(root, [Key("")]) == Some(Null) && Resolution(root, Print([Key("")])) == Some(root)
            && At(Null, []) == Some(Null) && Resolution(Null, Print([])) == None
  {
    BareSlash([Key("")]);
    var root, path := Object(map["" := Null]), [Key("")];
    assert path[1..] == [] && At(Null, path[1..]) == Some(Null);
    assert At(root, path) == At(root.fields[""], path[1..]);
  }

  /** Whatever a pointer resolves to is a node of the tree. */
  lemma {:induction false} FollowReachesANode(node: Json, segments: seq<string>) returns (path: seq<Segment>)
    requires Follow(node, segments).Some?
    ensures At(node, path) == Follow(node, segments) && |path| == |segments|
    decreases |segments|
  {
    if segments == [] {
      path := [];
    } else {
      var s := Unescape(segments[0]);
      var rest := FollowReachesANode(Child(node, s).value, segments[1..]);
      path := [if node.Object? then Key(s) else Index(Atoi(s).value)] + rest;
      assert path[1..] == rest;
    }
  }

  lemma ResolvesOnlyToNodes(root: Json, pointer: string)
    requires Resolution(root, pointer).Some?
    ensures exists path :: At(root, path) == Resolution(root, pointer)
  {
    if pointer == "" || pointer == "/" {
      assert At(root, []) == Some(root);
    } else {
      var path := FollowReachesANode(root, Splitting.Split(pointer[1..], '/'));
    }
  }
}
