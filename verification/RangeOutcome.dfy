/** What replacing and deleting a range promise, and the rewrite of the order they share. */
module RangeOutcome {
  import opened Base
  import opened Effects
  import opened Outcomes
  import opened RangeLaws
  import opened RangeOps
  import opened Tables

  datatype Replaced = Replaced(metadata: Metadata, replaced: seq<UUID>, inserted: seq<UUID>)

  datatype Deleted = Deleted(metadata: Metadata, deleted: seq<UUID>)

  // ---------------------------------------------------------------- outcomes

  /** A request without bounds is refused before the conversation is looked at. */
  ghost function ReplaceExpected(t: Tables, c: UUID, spec: ReplaceSpec): Result<Replacement> {
    if spec.fromID.None? && spec.toID.None? then Err(InvalidRangeSpec)
    else if c !in t.conversations then Err(ConversationNotFound)
    else ReplaceOutcome(Order(t, c), StoredIDs(t, c), spec)
  }

  ghost function DeleteExpected(t: Tables, c: UUID, spec: DeleteSpec): Result<Deletion> {
    if spec.fromID.None? && spec.toID.None? then Err(InvalidRangeSpec)
    else if c !in t.conversations then Err(ConversationNotFound)
    else DeleteOutcome(Order(t, c), spec)
  }

  /** The order of `c` is `target`, counted one version on, and the messages in `dropped` are gone; nothing else changed. */
  ghost predicate OrderRewritten(t: Tables, u: Tables, c: UUID, target: seq<UUID>, dropped: set<UUID>, now: Time, metadata: Metadata)
  {
    && Order(u, c) == target && u.messages == t.messages - dropped
    && Counts(t, u, c, now, metadata) && Elsewhere(t, u, c) && u.snapshots == t.snapshots
  }

  ghost predicate ReplaceDone(t: Tables, u: Tables, c: UUID, spec: ReplaceSpec, now: Time, result: Replaced) {
    var expected := ReplaceExpected(t, c, spec);
    && expected.Ok? && OrderRewritten(t, u, c, expected.value.order, {}, now, result.metadata)
    && result.replaced == expected.value.replaced && result.inserted == spec.insertIDs
  }

  ghost predicate DeleteDone(t: Tables, u: Tables, c: UUID, spec: DeleteSpec, now: Time, result: Deleted) {
    var expected := DeleteExpected(t, c, spec);
    && expected.Ok? && OrderRewritten(t, u, c, expected.value.remaining, Elements(expected.value.deleted), now, result.metadata)
    && result.deleted == expected.value.deleted
  }

  /** Positions or versions are used up: the only constraint a rewrite of the order can run into. */
  ghost predicate Exhausted(t: Tables, c: UUID, target: seq<UUID>) {
    t.nextPosition + |target| > MAX_INT64 || |target| > MAX_INT64 || Version(t, c) >= MAX_INT64
  }

  /** Why writing a planned order fails. */
  ghost predicate WriteFails(t: Tables, c: UUID, target: seq<UUID>, e: Error) {
    e == DatabaseFailure || (e == ConstraintViolation && Exhausted(t, c, target))
  }

  ghost predicate ReplaceFails(t: Tables, c: UUID, spec: ReplaceSpec, e: Error) {
    var expected := ReplaceExpected(t, c, spec);
    || e == DatabaseFailure
    || (e == ConstraintViolation && expected.Ok? && Exhausted(t, c, expected.value.order))
    || (e != ConstraintViolation && expected == Err(e))
  }

  ghost predicate DeleteFails(t: Tables, c: UUID, spec: DeleteSpec, e: Error) {
    var expected := DeleteExpected(t, c, spec);
    || e == DatabaseFailure
    || (e == ConstraintViolation && expected.Ok? && Exhausted(t, c, expected.value.remaining))
    || (e != ConstraintViolation && expected == Err(e))
  }

  /** What a replacement during which no statement fails returns. */
  ghost predicate ReplaceExact(t: Tables, c: UUID, spec: ReplaceSpec, r: Result<Replaced>) {
    match ReplaceExpected(t, c, spec)
    case Err(e) => r == Err(e)
    case Ok(plan) => r.Ok? || (r == Err(ConstraintViolation) && Exhausted(t, c, plan.order))
  }

  ghost predicate DeleteExact(t: Tables, c: UUID, spec: DeleteSpec, r: Result<Deleted>) {
    match DeleteExpected(t, c, spec)
    case Err(e) => r == Err(e)
    case Ok(plan) => r.Ok? || (r == Err(ConstraintViolation) && Exhausted(t, c, plan.remaining))
  }

  // ---------------------------------------------------------------- the rewrite

  /** The old items are cleared and `k` ids of the target inserted since `t0`. */
  ghost predicate RewriteProgress(t0: Tables, t: Tables, w: Writes, c: UUID, target: seq<UUID>, k: nat) {
    && t == t0.(nextPosition := t0.nextPosition + k)
    && w.conversations == map[] && RewriteWrites(t, w, c, target, k, {})
  }

  lemma RewriteBegins(t: Tables, c: UUID, target: seq<UUID>)
    requires c in t.conversations
    ensures RewriteProgress(t, t, ClearItems(t, NO_WRITES, c), c, target, 0)
  {
    ClearedWrites(t, c, target);
  }

  ghost predicate Insertable(t: Tables, c: UUID, target: seq<UUID>) {
    Consistent(t) && 0 < t.nextPosition && NoDup(target) && Elements(target) <= StoredIDs(t, c)
  }

  lemma RewriteContinues(t0: Tables, t: Tables, w: Writes, v: Writes, c: UUID, target: seq<UUID>, k: nat)
    requires Insertable(t0, c, target) && RewriteProgress(t0, t, w, c, target, k) && k < |target|
    requires InsertItem(t, w, t.nextPosition, Item(c, target[k])) == Some(v)
    ensures RewriteProgress(t0, t.(nextPosition := t.nextPosition + 1), v, c, target, k + 1)
  {
    DrawingKeepsConsistent(t0, t.nextPosition);
    RewriteInserted(t, w, c, target, k, {});
  }

  /** Only positions that are used up stop it, or the database. */
  ghost predicate RewriteFails(t: Tables, target: seq<UUID>, e: Error) {
    e == DatabaseFailure || (e == ConstraintViolation && t.nextPosition + |target| > MAX_INT64)
  }

  lemma RewriteStops(t0: Tables, t: Tables, w: Writes, c: UUID, target: seq<UUID>, k: nat, e: Error)
    requires Insertable(t0, c, target) && RewriteProgress(t0, t, w, c, target, k) && k < |target|
    requires e == DatabaseFailure || (e == ConstraintViolation && InsertItem(t, w, t.nextPosition, Item(c, target[k])).None?)
    ensures RewriteFails(t0, target, e)
  {
    if e == ConstraintViolation && t.nextPosition <= MAX_INT64 {
      assert StoredIDs(t, c) == StoredIDs(t0, c);
      RewriteNeverRefused(t, w, c, target, k);
    }
  }

  lemma AbsoluteCount(t: Tables, w: Writes, c: UUID, count: nat, now: Time, v: Writes)
    requires w.conversations == map[] && SetCount(t, w, c, count, now) == Some(v)
    ensures c in t.conversations && v == w.(conversations := map[c := ConversationRow(count, Version(t, c) + 1, now)])
    ensures Counted(t, v, c, count)
  {
    PlusEmpty(t.conversations);
  }

  lemma AbsoluteRefused(t: Tables, w: Writes, c: UUID, count: nat, now: Time)
    requires w.conversations == map[] && c in t.conversations && SetCount(t, w, c, count, now).None?
    ensures count > MAX_INT64 || Version(t, c) >= MAX_INT64
  {
    PlusEmpty(t.conversations);
  }

  lemma OrderRewrittenFrom(t0: Tables, t: Tables, u: Tables, c: UUID, target: seq<UUID>, dropped: set<UUID>, now: Time)
    requires Quiet(t0, t) && OthersKept(t, u, c) && u.snapshots == t.snapshots && Order(u, c) == target
    requires u.messages == t.messages - dropped
    requires c in u.conversations && u.conversations[c] == ConversationRow(|target|, Version(t, c) + 1, now)
    ensures OrderRewritten(t0, u, c, target, dropped, now, MetadataOf(c, u.conversations[c]))
  {
    assert t == t0.(nextPosition := u.nextPosition);
  }

  lemma TargetsDraw(t0: Tables, t: Tables, c: UUID, target: seq<UUID>, dropped: set<UUID>)
    requires Quiet(t0, t) && Targets(t0, c, target, dropped)
    ensures Targets(t, c, target, dropped)
  {
    assert StoredIDs(t, c) == StoredIDs(t0, c);
  }

  lemma RewriteReadable(t: Tables, w: Writes)
    requires Readable(t) && w.messages == map[] && w.snapshots == map[]
    ensures Readable(Apply(t, w)) && Apply(t, w).snapshots == t.snapshots
  {
    PlusEmpty(t.snapshots);
    ReadableApply(t, w);
  }

  lemma CountKeepsRewrite(t: Tables, w: Writes, v: Writes, c: UUID, target: seq<UUID>, dropped: set<UUID>)
    requires RewriteWrites(t, w, c, target, |target|, dropped) && v == w.(conversations := v.conversations)
    ensures RewriteWrites(t, v, c, target, |target|, dropped)
  {
  }

  /** The order is rewritten and its count stored in the private writes `v`, all from tables like `t0`. */
  ghost predicate Written(t0: Tables, t: Tables, v: Writes, c: UUID, target: seq<UUID>, dropped: set<UUID>, now: Time) {
    && Quiet(t0, t) && Targets(t0, c, target, dropped)
    && exists w: Writes ::
         && w.conversations == map[] && RewriteWrites(t, w, c, target, |target|, dropped)
         && SetCount(t, w, c, |target|, now) == Some(v)
  }

  /** A committed rewrite is done. */
  lemma RewriteSucceeds(t0: Tables, t: Tables, v: Writes, c: UUID, target: seq<UUID>, dropped: set<UUID>, now: Time)
    requires Healthy(t0) && Written(t0, t, v, c, target, dropped, now)
    ensures Healthy(Apply(t, v)) && c in v.conversations
    ensures OrderRewritten(t0, Apply(t, v), c, target, dropped, now, MetadataOf(c, v.conversations[c]))
  {
    var w: Writes :| w.conversations == map[] && RewriteWrites(t, w, c, target, |target|, dropped)
             && SetCount(t, w, c, |target|, now) == Some(v);
    DrawingKeepsConsistent(t0, t.nextPosition);
    TargetsDraw(t0, t, c, target, dropped);
    AbsoluteCount(t, w, c, |target|, now, v);
    CountKeepsRewrite(t, w, v, c, target, dropped);
    CommitRewrite(t, v, c, target, dropped);
    RewriteReadable(t, v);
    OrderRewrittenFrom(t0, t, Apply(t, v), c, target, dropped, now);
  }

  ghost predicate ReplaceWritten(t0: Tables, t: Tables, v: Writes, c: UUID, spec: ReplaceSpec, now: Time, result: Replaced) {
    var expected := ReplaceExpected(t0, c, spec);
    && expected.Ok? && Written(t0, t, v, c, expected.value.order, {}, now)
    && c in v.conversations && result == Replaced(MetadataOf(c, v.conversations[c]), expected.value.replaced, spec.insertIDs)
  }

  ghost predicate DeleteWritten(t0: Tables, t: Tables, v: Writes, c: UUID, spec: DeleteSpec, now: Time, result: Deleted) {
    var expected := DeleteExpected(t0, c, spec);
    && expected.Ok? && Written(t0, t, v, c, expected.value.remaining, Elements(expected.value.deleted), now)
    && c in v.conversations && result == Deleted(MetadataOf(c, v.conversations[c]), expected.value.deleted)
  }

  lemma ReplaceSucceeds(t0: Tables, t: Tables, v: Writes, c: UUID, spec: ReplaceSpec, now: Time, result: Replaced)
    requires Healthy(t0) && ReplaceWritten(t0, t, v, c, spec, now, result)
    ensures Healthy(Apply(t, v)) && ReplaceDone(t0, Apply(t, v), c, spec, now, result)
  {
    RewriteSucceeds(t0, t, v, c, ReplaceExpected(t0, c, spec).value.order, {}, now);
  }

  lemma DeleteSucceeds(t0: Tables, t: Tables, v: Writes, c: UUID, spec: DeleteSpec, now: Time, result: Deleted)
    requires Healthy(t0) && DeleteWritten(t0, t, v, c, spec, now, result)
    ensures Healthy(Apply(t, v)) && DeleteDone(t0, Apply(t, v), c, spec, now, result)
  {
    var d := DeleteExpected(t0, c, spec).value;
    RewriteSucceeds(t0, t, v, c, d.remaining, Elements(d.deleted), now);
  }

  lemma WithDropped(t: Tables, w: Writes, c: UUID, target: seq<UUID>, gone: set<UUID>)
    requires RewriteWrites(t, w, c, target, |target|, {})
    ensures RewriteWrites(t, w.(droppedMessages := gone), c, target, |target|, gone)
  {
  }

  /** DELETE FROM messages takes the deleted range and no item of any conversation with it. */
  lemma DeletionDrops(t0: Tables, t: Tables, w: Writes, c: UUID, spec: DeleteSpec)
    requires Consistent(t0) && DeleteOutcome(Order(t0, c), spec).Ok?
    requires var d := DeleteOutcome(Order(t0, c), spec).value; RewriteProgress(t0, t, w, c, d.remaining, |d.remaining|)
    ensures var d := DeleteOutcome(Order(t0, c), spec).value;
            var v := DropMessages(t, w, c, d.deleted);
            && v == w.(droppedMessages := Elements(d.deleted))
            && v.conversations == map[] && RewriteWrites(t, v, c, d.remaining, |d.remaining|, Elements(d.deleted))
  {
    var d := DeleteOutcome(Order(t0, c), spec).value;
    DeleteTargets(t0, c, spec);
    DrawingKeepsConsistent(t0, t.nextPosition);
    TargetsDraw(t0, t, c, d.remaining, Elements(d.deleted));
    DropTouchesNoItem(t, w, c, d.remaining, d.deleted);
    WithDropped(t, w, c, d.remaining, Elements(d.deleted));
  }

  lemma NothingWritten(t: Tables)
    ensures Apply(t, NO_WRITES) == t
  {
    PlusEmpty(t.conversations);
    PlusEmpty(t.messages);
    PlusEmpty(t.items);
    PlusEmpty(t.snapshots);
  }

  // ---------------------------------------------------------------- one operation after another

  lemma StoredStays(t: Tables, u: Tables, c: UUID, target: seq<UUID>, now: Time, metadata: Metadata)
    requires OrderRewritten(t, u, c, target, {}, now, metadata)
    ensures StoredIDs(u, c) == StoredIDs(t, c)
  {
    PlusEmpty(t.messages);
  }

  /** A replacement by a non-empty list is undone by putting the ids it returned back between its first and last id. */
  lemma ReplaceIsUndoable(t: Tables, u: Tables, c: UUID, spec: ReplaceSpec, now: Time, result: Replaced)
    requires Consistent(t) && ReplaceDone(t, u, c, spec, now, result) && spec.insertIDs != []
    ensures var undo := ReplaceSpec(Some(spec.insertIDs[0]), Some(spec.insertIDs[|spec.insertIDs| - 1]), result.replaced);
            ReplaceExpected(u, c, undo) == Ok(Replacement(Order(t, c), spec.insertIDs))
  {
    OrderSound(t, c);
    ReplaceUndo(Order(t, c), StoredIDs(t, c), spec);
    StoredStays(t, u, c, ReplaceExpected(t, c, spec).value.order, now, result.metadata);
  }

  /** A pure removal that leaves a neighbour is undone by inserting the returned ids next to it. */
  lemma RemovalIsUndoable(t: Tables, u: Tables, c: UUID, spec: ReplaceSpec, now: Time, result: Replaced) returns (undo: ReplaceSpec)
    requires Consistent(t) && ReplaceDone(t, u, c, spec, now, result) && spec.insertIDs == [] && Order(u, c) != []
    ensures (undo.fromID.None? || undo.toID.None?) && undo.insertIDs == result.replaced
    ensures ReplaceExpected(u, c, undo) == Ok(Replacement(Order(t, c), []))
  {
    OrderSound(t, c);
    undo := NeighbourUndo(Order(t, c), StoredIDs(t, c), spec);
    StoredStays(t, u, c, ReplaceExpected(t, c, spec).value.order, now, result.metadata);
  }

  /** What was deleted is stored no more, so no replacement that inserts it can succeed. */
  lemma DeletedIsGone(t: Tables, u: Tables, c: UUID, spec: DeleteSpec, now: Time, result: Deleted, again: ReplaceSpec, id: UUID)
    requires DeleteDone(t, u, c, spec, now, result) && id in result.deleted && id in again.insertIDs
    ensures ReplaceExpected(u, c, again).Err?
    ensures ReplaceBounds(Order(u, c), again).Ok? ==> ReplaceExpected(u, c, again) == Err(MessageNotFound)
  {
    assert id in Elements(result.deleted) && id in Elements(again.insertIDs) && id !in StoredIDs(u, c);
  }
}
