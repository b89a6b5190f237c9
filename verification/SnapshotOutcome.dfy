/** What creating a snapshot promises, and the copying loop behind it. */
module SnapshotOutcome {
  import opened Base
  import opened Body
  import opened Effects
  import opened Outcomes
  import opened Tables

  datatype SnapshotInfo = SnapshotInfo(id: UUID, conversation: UUID, createdAt: Time)

  /** The ids in the order of their first occurrence. */
  function FirstOccurrences(ids: seq<UUID>): seq<UUID> {
    if ids == [] then []
    else
      var last := |ids| - 1;
      FirstOccurrences(ids[..last]) + if ids[last] in ids[..last] then [] else [ids[last]]
  }

  lemma {:induction false} FirstOccurrencesSound(ids: seq<UUID>)
    ensures NoDup(FirstOccurrences(ids)) && Elements(FirstOccurrences(ids)) == Elements(ids)
  {
    if ids != [] {
      var last := |ids| - 1;
      FirstOccurrencesSound(ids[..last]);
      assert ids == ids[..last] + [ids[last]];
      ElementsConcat(ids[..last], [ids[last]]);
      if ids[last] !in ids[..last] {
        assert ids[last] !in Elements(ids[..last]);
        NoDupConcat(FirstOccurrences(ids[..last]), [ids[last]]);
        ElementsConcat(FirstOccurrences(ids[..last]), [ids[last]]);
      }
    }
  }

  /**
   * The snapshot lists the requested ids in order, duplicates kept, each message as stored; its hashes
   * are of the deterministic bytes; nothing else has changed.
   */
  ghost predicate SnapshotDone(t: Tables, u: Tables, c: UUID, copied: seq<UUID>, id: UUID, now: Time, info: SnapshotInfo) {
    && copied != [] && c in t.conversations && id !in t.snapshots && info == SnapshotInfo(id, c, now)
    && id in u.snapshots && u == t.(snapshots := t.snapshots[id := u.snapshots[id]])
    && u.snapshots[id].conversation == c && u.snapshots[id].createdAt == now
    && (forall i: nat :: i in u.snapshots[id].items <==> i < |copied|)
    && forall i :: 0 <= i < |copied| ==>
         && copied[i] in StoredIDs(t, c)
         && var message := ToMessage(copied[i], t.messages[copied[i]]);
            message.Some? && SnapshotMessage(c, u.snapshots[id].items[i]) == message
            && u.snapshots[id].items[i].hashed == DeterministicBytes(message.value.body)
  }

  ghost predicate SnapshotFails(t: Tables, c: UUID, copied: seq<UUID>, id: UUID, e: Error) {
    match e
    case EmptyRequest => copied == []
    case ConversationNotFound => copied != [] && c !in t.conversations
    case MessageNotFound => copied != [] && c in t.conversations && !(Elements(copied) <= StoredIDs(t, c))
    case ConstraintViolation =>
      c in t.conversations && Elements(copied) <= StoredIDs(t, c) && (id in t.snapshots || |copied| > 0x8000_0000)
    case DatabaseFailure => true
    case _ => false
  }

  /** The error a snapshot must report, if any, when no statement fails. */
  ghost function SnapshotExpected(t: Tables, c: UUID, copied: seq<UUID>): Option<Error> {
    if copied == [] then Some(EmptyRequest)
    else if c !in t.conversations then Some(ConversationNotFound)
    else if !(Elements(copied) <= StoredIDs(t, c)) then Some(MessageNotFound)
    else None
  }

  /** What a snapshot during which no statement fails returns; order_idx is an INTEGER. */
  ghost predicate SnapshotExact(t: Tables, c: UUID, copied: seq<UUID>, id: UUID, r: Result<SnapshotInfo>) {
    match SnapshotExpected(t, c, copied)
    case Some(e) => r == Err(e)
    case None => if id in t.snapshots || |copied| > 0x8000_0000 then r == Err(ConstraintViolation) else r.Ok?
  }

  lemma SnapshotSuccessIsExact(t: Tables, u: Tables, c: UUID, copied: seq<UUID>, id: UUID, now: Time, r: Result<SnapshotInfo>)
    requires r.Ok? && SnapshotDone(t, u, c, copied, id, now, r.value) && |copied| <= 0x8000_0000
    ensures SnapshotExact(t, c, copied, id, r)
  {
    forall m | m in copied ensures m in StoredIDs(t, c) {
      var i :| 0 <= i < |copied| && copied[i] == m;
    }
  }

  /** The first `k` copies have been inserted. */
  ghost predicate CopyProgress(w: Writes, c: UUID, id: UUID, now: Time, copied: seq<UUID>, found: map<UUID, MessageRow>, k: nat) {
    && k <= |copied| && k <= 0x8000_0000 && id in w.snapshots && w == NO_WRITES.(snapshots := map[id := w.snapshots[id]])
    && w.snapshots[id].createdAt == now && CopiesOf(w.snapshots[id], c, copied[..k], found)
  }

  lemma CopyBegins(w: Writes, c: UUID, id: UUID, now: Time, copied: seq<UUID>, found: map<UUID, MessageRow>)
    requires w == NO_WRITES.(snapshots := NO_WRITES.snapshots[id := SnapshotRow(c, now, map[])])
    ensures CopyProgress(w, c, id, now, copied, found, 0)
  {
  }

  lemma OneMoreKey<V>(items: map<nat, V>, more: map<nat, V>, k: nat, v: V)
    requires (forall i: nat :: i in items <==> i < k) && more == items[k := v]
    ensures forall i: nat :: i in more <==> i < k + 1
  {
  }

  lemma CopyAt(row: SnapshotRow, c: UUID, copied: seq<UUID>, found: map<UUID, MessageRow>, i: nat)
    requires CopiesOf(row, c, copied, found) && i < |copied|
    ensures i in row.items && copied[i] in found && CopyOf(copied[i], found[copied[i]]) == Some(row.items[i])
  {
  }

  lemma OneMoreCopy(
    row: SnapshotRow, c: UUID, copied: seq<UUID>, found: map<UUID, MessageRow>, k: nat, item: SnapshotItem)
    requires k < |copied| && CopiesOf(row, c, copied[..k], found)
    requires copied[k] in found && CopyOf(copied[k], found[copied[k]]) == Some(item)
    ensures CopiesOf(row.(items := row.items[k := item]), c, copied[..k + 1], found)
  {
    var more, ids := row.items[k := item], copied[..k + 1];
    OneMoreKey(row.items, more, k, item);
    forall i | 0 <= i < k + 1 ensures ids[i] in found && CopyOf(ids[i], found[ids[i]]) == Some(more[i]) {
      if i < k {
        CopyAt(row, c, copied[..k], found, i);
        assert copied[..k][i] == ids[i];
      }
    }
  }

  lemma CopyContinues(
    w: Writes, v: Writes, c: UUID, id: UUID, now: Time, copied: seq<UUID>, found: map<UUID, MessageRow>, k: nat, item: SnapshotItem)
    requires CopyProgress(w, c, id, now, copied, found, k) && k < |copied| && k <= 0x7FFF_FFFF
    requires copied[k] in found && CopyOf(copied[k], found[copied[k]]) == Some(item)
    requires var row := w.snapshots[id];
             v == w.(snapshots := w.snapshots[id := row.(items := row.items[k := item])])
    ensures CopyProgress(v, c, id, now, copied, found, k + 1)
  {
    OneMoreCopy(w.snapshots[id], c, copied, found, k, item);
    assert w.snapshots[id := v.snapshots[id]] == map[id := v.snapshots[id]];
  }

  /** The rows the query returns for ids that are all stored. */
  ghost predicate Found(t: Tables, c: UUID, copied: seq<UUID>, found: map<UUID, MessageRow>) {
    && Elements(copied) <= StoredIDs(t, c)
    && forall m :: m in copied ==> m in found && m in t.messages && found[m] == t.messages[m]
  }

  lemma CopiesFaithful(t: Tables, c: UUID, copied: seq<UUID>, found: map<UUID, MessageRow>, row: SnapshotRow, i: nat)
    requires Readable(t) && Found(t, c, copied, found) && CopiesOf(row, c, copied, found) && i < |copied|
    ensures copied[i] in StoredIDs(t, c)
    ensures var message := ToMessage(copied[i], t.messages[copied[i]]);
            && message.Some? && SnapshotMessage(c, row.items[i]) == message
            && row.items[i].hashed == DeterministicBytes(message.value.body)
            && Stored(row.items[i].columns)
  {
    var m := copied[i];
    assert m in Elements(copied) && m in found;
    CopyIsFaithful(m, t.messages[m]);
  }

  lemma CopiesReadable(t: Tables, c: UUID, copied: seq<UUID>, found: map<UUID, MessageRow>, row: SnapshotRow)
    requires Readable(t) && Found(t, c, copied, found) && CopiesOf(row, c, copied, found)
    ensures forall i :: i in row.items ==> Stored(row.items[i].columns)
  {
    forall i | i in row.items ensures Stored(row.items[i].columns) {
      CopiesFaithful(t, c, copied, found, row, i);
    }
  }

  lemma SnapshotCommitsWell(t: Tables, w: Writes, c: UUID, id: UUID, now: Time, copied: seq<UUID>, found: map<UUID, MessageRow>)
    requires Consistent(t) && c in t.conversations && CopyProgress(w, c, id, now, copied, found, |copied|)
    ensures Apply(t, w) == t.(snapshots := t.snapshots[id := w.snapshots[id]]) && Consistent(Apply(t, w))
    ensures CopiesOf(w.snapshots[id], c, copied, found)
  {
    assert copied[..|copied|] == copied;
    SnapshotComplete(w.snapshots[id], |copied|);
    CommitSnapshot(t, w, id, w.snapshots[id]);
  }

  /** All copies are inserted, made from the rows stored at the time. */
  ghost predicate SnapshotWritten(t: Tables, w: Writes, c: UUID, id: UUID, now: Time, copied: seq<UUID>) {
    && copied != [] && c in t.conversations && id !in t.snapshots
    && exists found :: Found(t, c, copied, found) && CopyProgress(w, c, id, now, copied, found, |copied|)
  }

  /** A committed snapshot is done. */
  lemma SnapshotSucceeds(t: Tables, w: Writes, c: UUID, id: UUID, now: Time, copied: seq<UUID>)
    requires Healthy(t) && SnapshotWritten(t, w, c, id, now, copied)
    ensures Healthy(Apply(t, w)) && SnapshotDone(t, Apply(t, w), c, copied, id, now, SnapshotInfo(id, c, now))
    ensures |copied| <= 0x8000_0000
  {
    var found :| Found(t, c, copied, found) && CopyProgress(w, c, id, now, copied, found, |copied|);
    SnapshotCommitsWell(t, w, c, id, now, copied, found);
    CopiesReadable(t, c, copied, found, w.snapshots[id]);
    ReadableApply(t, w);
    forall i | 0 <= i < |copied|
      ensures copied[i] in StoredIDs(t, c)
      ensures var message := ToMessage(copied[i], t.messages[copied[i]]);
              && message.Some? && SnapshotMessage(c, w.snapshots[id].items[i]) == message
              && w.snapshots[id].items[i].hashed == DeterministicBytes(message.value.body)
    {
      CopiesFaithful(t, c, copied, found, w.snapshots[id], i);
    }
  }
}
