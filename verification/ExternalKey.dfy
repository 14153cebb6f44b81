/** The external key under which retries of one request find their task. Ids are taken already trimmed. */
module ExternalKey {
  datatype Ids = Ids(task: string, context: string, message: string)

  /** What a key is meant to stand for. */
  datatype Identity = Nothing | ByMessage(context: string, message: string) | ByTask(task: string, context: string)

  function IdentityOf(i: Ids): Identity
  {
    if i.message != "" then ByMessage(i.context, i.message)
    else if i.task == "" && i.context == "" then Nothing
    else ByTask(i.task, i.context)
  }

  function ExternalIdempotencyKey(i: Ids): string
  {
    if i.message != "" then i.context + "|" + i.message
    else if i.task == "" && i.context == "" then ""
    else i.task + "|" + i.context + "|"
  }

  /** What stands before the first bar. */
  function Lead(i: Ids): string
  {
    if i.message != "" then i.context else i.task
  }

  /** A message that ends in a bar looks like a task's context and its closing bar. */
  predicate Confusable(a: Identity, b: Identity)
  {
    a.ByMessage? && b.ByTask? && a.context == b.task && a.message == b.context + "|"
  }

  lemma KeyParts(i: Ids)
    ensures IdentityOf(i) != Nothing ==>
              ExternalIdempotencyKey(i) == Lead(i) + ['|'] + if i.message != "" then i.message else i.context + "|"
  {
  }

  /** The text before the first bar and the rest are read off a key. */
  lemma BarSplits(a: string, x: string, b: string, y: string)
    requires '|' !in a && '|' !in b
    ensures a + ['|'] + x == b + ['|'] + y <==> a == b && x == y
  {
    var k, l := a + ['|'] + x, b + ['|'] + y;
    assert k[|a|] == '|' && forall n :: 0 <= n < |a| ==> a[n] == k[n];
    assert l[|b|] == '|' && forall n :: 0 <= n < |b| ==> b[n] == l[n];
    if k == l {
      assert a == k[..|a|] && b == l[..|b|] && x == k[|a| + 1..] && y == l[|b| + 1..];
    }
  }

  /** Two requests share a key exactly when they are the same request, the same message in the same context
      whatever task ids the replicas minted or, without a message, the same task and context; or when one is the
      other's confusable. Only the ids written first must be free of bars. */
  lemma KeysIdentifyRequests(a: Ids, b: Ids)
    requires '|' !in Lead(a) && '|' !in Lead(b)
    ensures ExternalIdempotencyKey(a) == ExternalIdempotencyKey(b) <==>
            || IdentityOf(a) == IdentityOf(b)
            || Confusable(IdentityOf(a), IdentityOf(b)) || Confusable(IdentityOf(b), IdentityOf(a))
  {
    KeyParts(a);
    KeyParts(b);
    var x := if a.message != "" then a.message else a.context + "|";
    var y := if b.message != "" then b.message else b.context + "|";
    BarSplits(Lead(a), x, Lead(b), y);
    assert a.context + "|" == b.context + "|" <==> a.context == b.context by {
      assert (a.context + "|")[..|a.context|] == a.context && (b.context + "|")[..|b.context|] == b.context;
    }
  }

  /** With a bar in the id written first two different requests can share a key. */
  lemma BarsCollide()
    ensures var a, b := Ids("", "a|b", "c"), Ids("", "a", "b|c");
            ExternalIdempotencyKey(a) == ExternalIdempotencyKey(b) && IdentityOf(a) != IdentityOf(b)
  {
  }
}
