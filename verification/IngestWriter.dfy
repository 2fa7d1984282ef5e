/** What the writer task does with the items it receives (`daemon/src/ingest/writer.rs`). */
module IngestWriter {
  import opened Protocol
  import opened Projection
  import opened Store
  import opened IngestQueue

  /** The event an item becomes, but for its id and time. */
  predicate Becomes(item: Item, e: Event) {
    && e.key == item.envelope.key && e.kind == item.envelope.kind && e.reaction == item.envelope.reaction
    && e.payload == item.envelope.payload && e.pid == item.envelope.pid && e.cwd == item.envelope.cwd
  }

  /** What one item may add to the log: nothing when its write fails; otherwise its event, and for a live
      item that proves who holds its pid the ends of the sessions it supersedes. */
  predicate ItemAdds(item: Item, added: seq<Event>) {
    added == [] || (Becomes(item, added[0]) && forall i :: 0 < i < |added| ==> IsSuperseded(item, added[i]))
  }

  /** The end of another session that had claimed the item's pid. */
  predicate IsSuperseded(item: Item, e: Event) {
    && item.origin.Live? && item.envelope.pid.Some? && !item.envelope.kind.SessionEnded?
    && e.kind.SessionEnded? && e.pid == item.envelope.pid && e.key != item.envelope.key
  }

  /** What a sequence of items may add: each its own part, in order. */
  ghost predicate ItemsAdd(items: seq<Item>, added: seq<Event>)
    decreases |items|
  {
    if items == [] then added == []
    else exists cut: nat :: cut <= |added| && ItemsAdd(items[..|items| - 1], added[..cut]) && ItemAdds(items[|items| - 1], added[cut..])
  }

  lemma ItemsAddSnoc(items: seq<Item>, added: seq<Event>, item: Item, more: seq<Event>)
    requires ItemsAdd(items, added) && ItemAdds(item, more)
    ensures ItemsAdd(items + [item], added + more)
  {
    assert (items + [item])[..|items|] == items;
    assert (added + more)[..|added|] == added && (added + more)[|added|..] == more;
  }

  /** `write_item`: live items go through supersession, replayed ones do not. */
  method WriteItem(store: ProjectionStore, item: Item) returns (outcome: WriteOutcome)
    modifies store`log, store`table, store`used, store.broadcaster
    ensures old(store.Valid()) && WellTyped(item.envelope) ==> store.Valid()
    ensures old(store.log) <= store.log && ItemAdds(item, store.log[|old(store.log)|..])
    ensures outcome.Written? <==> store.log != old(store.log)
    ensures item.origin.Replay? ==>
      store.used <= old(store.used) + 1 &&
      store.Tables() == Projection.WriteInner(old(store.Tables()), item.envelope, None, store.attempts(old(store.used))).db
  {
    ghost var before, attempt := store.log, store.attempts(store.used);
    match item.origin {
      case Live => outcome := store.Write(item.envelope);
      case Replay => outcome := store.WriteReplayed(item.envelope);
    }
    ghost var added := store.log[|before|..];
    if outcome.Written? {
      ghost var e := EventOf(item.envelope, |before| + 1, attempt.now);
      assert before + [e] <= store.log && (before + [e])[|before|] == e;
      assert added[0] == e && Becomes(item, e);
      forall i | 0 < i < |added| ensures IsSuperseded(item, added[i]) {
        assert added[i] == store.log[|before| + i];
      }
    } else {
      assert added == [];
    }
  }

  /** The log has grown by what these items may add. */
  ghost predicate Drained(was: seq<Event>, log: seq<Event>, items: seq<Item>) {
    was <= log && ItemsAdd(items, log[|was|..])
  }

  lemma DrainedOneMore(was: seq<Event>, before: seq<Event>, after: seq<Event>, queue: seq<Item>, i: nat)
    requires i < |queue| && Drained(was, before, queue[..i])
    requires before <= after && ItemAdds(queue[i], after[|before|..])
    ensures Drained(was, after, queue[..i + 1])
  {
    ItemsAddSnoc(queue[..i], before[|was|..], queue[i], after[|before|..]);
    assert queue[..i] + [queue[i]] == queue[..i + 1];
    assert after[|was|..] == before[|was|..] + after[|before|..];
  }

  /** The shutdown drain: what is left in the queue is written in order, each write's failure only logged. */
  method DrainQueue(store: ProjectionStore, queue: seq<Item>)
    modifies store`log, store`table, store`used, store.broadcaster
    ensures old(store.Valid()) && (forall item <- queue :: WellTyped(item.envelope)) ==> store.Valid()
    ensures Drained(old(store.log), store.log, queue)
  {
    ghost var was := store.log;
    ghost var sound := store.Valid() && forall item <- queue :: WellTyped(item.envelope);
    assert Drained(was, store.log, queue[..0]) by { assert store.log[|was|..] == []; }
    for i := 0 to |queue|
      invariant sound ==> store.Valid()
      invariant Drained(was, store.log, queue[..i])
    {
      ghost var before := store.log;
      assert queue[i] in queue;
      var _ := WriteItem(store, queue[i]);
      DrainedOneMore(was, before, store.log, queue, i);
    }
    assert queue[..|queue|] == queue;
  }
}
