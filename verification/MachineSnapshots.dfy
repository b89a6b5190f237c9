/** What a snapshot holds once it has committed, whatever ran in between and whatever runs later. */
module MachineSnapshots {
  import opened Base
  import opened Listings
  import opened Machine
  import opened MachineCommit
  import opened MachineHistory
  import opened MachineInvariant
  import opened MachineReadable
  import opened MachineRuns
  import opened SnapshotOutcome
  import opened Tables

  ghost predicate Makes(op: Operation, id: UUID) {
    op.Snapshot? && op.id == id
  }

  /** Transaction `x` is on its way with what it fetched, or has ended with or without its snapshot. */
  ghost predicate Tracked(s: State, x: nat, c: UUID, op: Operation, found: map<UUID, MessageRow>)
    requires op.Snapshot?
  {
    && (forall y :: y in s.txns && y != x ==> !Makes(s.txns[y].op, op.id))
    && if x in s.txns then
         && s.txns[x].op == op && s.txns[x].conversation == c && op.id !in s.db.snapshots
         && (s.txns[x].stage == Fetched(found) || (s.txns[x].stage.Copying? && s.txns[x].stage.found == found))
       else op.id in s.db.snapshots ==> CopiesOf(s.db.snapshots[op.id], c, op.copied, found)
  }

  /** No later transaction reuses the number `x` or the snapshot id. */
  ghost predicate Alone(e: Event, x: nat, id: UUID) {
    e.Begin? ==> e.x != x && !Makes(e.op, id)
  }

  lemma OwnCommitTracked(s: State, x: nat, c: UUID, op: Operation, found: map<UUID, MessageRow>)
    requires op.Snapshot? && Inv(s) && x in s.txns && Tracked(s, x, c, op, found) && ReadyToCommit(s.txns[x])
    ensures Tracked(Commit(s, x), x, c, op, found)
  {
    var a := s.txns[x];
    assert TxnInv(s.db, a);
    SnapshotCommits(s.db, a);
    assert CopiesOf(a.writes.snapshots[op.id], c, op.copied, found);
  }

  lemma OwnStatementTracked(s: State, x: nat, c: UUID, op: Operation, found: map<UUID, MessageRow>)
    requires op.Snapshot? && x in s.txns && Tracked(s, x, c, op, found) && !ReadyToCommit(s.txns[x]) && Next(s, x).Some?
    ensures Tracked(Next(s, x).value, x, c, op, found)
  {
    NextWithoutCommit(s, x);
  }

  /** Whatever leaves the snapshot row and the tracked transaction alone, and makes no rival, keeps track. */
  lemma TrackedCarries(s: State, r: State, x: nat, c: UUID, op: Operation, found: map<UUID, MessageRow>)
    requires op.Snapshot? && Tracked(s, x, c, op, found)
    requires op.id in s.db.snapshots <==> op.id in r.db.snapshots
    requires op.id in s.db.snapshots ==> r.db.snapshots[op.id] == s.db.snapshots[op.id]
    requires x in s.txns <==> x in r.txns
    requires x in s.txns ==> r.txns[x] == s.txns[x]
    requires forall y :: y in r.txns && y != x ==> !Makes(r.txns[y].op, op.id)
    ensures Tracked(r, x, c, op, found)
  {
  }

  /** A commit adds at most the snapshot its own operation makes. */
  lemma CommitMakesOwn(s: State, y: nat, id: UUID)
    requires Inv(s) && y in s.txns && ReadyToCommit(s.txns[y]) && !Makes(s.txns[y].op, id)
    ensures id in Commit(s, y).db.snapshots <==> id in s.db.snapshots
    ensures id in s.db.snapshots ==> Commit(s, y).db.snapshots[id] == s.db.snapshots[id]
  {
    CommitKeeps(s, y);
  }

  lemma OtherAdvanceTracked(s: State, y: nat, x: nat, c: UUID, op: Operation, found: map<UUID, MessageRow>)
    requires op.Snapshot? && Inv(s) && Tracked(s, x, c, op, found) && y in s.txns && Next(s, y).Some? && y != x
    ensures Tracked(Next(s, y).value, x, c, op, found)
  {
    if ReadyToCommit(s.txns[y]) {
      CommitMakesOwn(s, y, op.id);
    } else {
      NextWithoutCommit(s, y);
    }
    TrackedCarries(s, Next(s, y).value, x, c, op, found);
  }

  lemma OtherStepTracked(s: State, e: Event, x: nat, c: UUID, op: Operation, found: map<UUID, MessageRow>)
    requires op.Snapshot? && Inv(s) && Tracked(s, x, c, op, found) && Step(s, e).Some? && Alone(e, x, op.id) && e.x != x
    ensures Tracked(Step(s, e).value, x, c, op, found)
  {
    match e
    case Begin(_, _, _, _) => TrackedCarries(s, Step(s, e).value, x, c, op, found);
    case Abort(_) => TrackedCarries(s, Step(s, e).value, x, c, op, found);
    case Advance(y) => OtherAdvanceTracked(s, y, x, c, op, found);
  }

  lemma {:induction false} RunTracked(s: State, events: seq<Event>, x: nat, c: UUID, op: Operation, found: map<UUID, MessageRow>)
    requires op.Snapshot? && Inv(s) && Tracked(s, x, c, op, found) && Run(s, events).Some?
    requires forall i :: 0 <= i < |events| ==> Alone(events[i], x, op.id)
    ensures Tracked(Run(s, events).value, x, c, op, found)
  {
    if events != [] {
      var before, e := events[..|events| - 1], events[|events| - 1];
      RunTracked(s, before, x, c, op, found);
      RunKeeps(s, before);
      var r := Run(s, before).value;
      if e.x != x {
        OtherStepTracked(r, e, x, c, op, found);
      } else if e.Advance? {
        if ReadyToCommit(r.txns[x]) {
          OwnCommitTracked(r, x, c, op, found);
        } else {
          OwnStatementTracked(r, x, c, op, found);
        }
      }
    }
  }

  lemma FetchTracked(s: State, x: nat)
    requires x in s.txns && s.txns[x].op.Snapshot? && s.txns[x].stage.Begun? && FetchMessages(s, x).Some?
    requires s.txns[x].op.id !in s.db.snapshots
    requires forall y :: y in s.txns && y != x ==> !Makes(s.txns[y].op, s.txns[x].op.id)
    ensures var a, r := s.txns[x], FetchMessages(s, x).value;
            && r.txns[x].stage.Fetched? && Tracked(r, x, a.conversation, a.op, r.txns[x].stage.found)
            && Found(s.db, a.conversation, a.op.copied, r.txns[x].stage.found)
  {
    var a, found := s.txns[x], FetchMessages(s, x).value.txns[x].stage.found;
    forall m | m in a.op.copied ensures m in found && m in StoredIDs(s.db, a.conversation) && found[m] == s.db.messages[m] {
    }
  }

  /** Transaction `x`, about to fetch, is the only one to make its snapshot, which is there after `events`. */
  ghost predicate Takes(s: State, x: nat, events: seq<Event>) {
    && x in s.txns && s.txns[x].op.Snapshot? && s.txns[x].stage.Begun? && s.txns[x].op.id !in s.db.snapshots
    && (forall y :: y in s.txns && y != x ==> !Makes(s.txns[y].op, s.txns[x].op.id))
    && (forall i :: 0 <= i < |events| ==> Alone(events[i], x, s.txns[x].op.id))
    && Next(s, x).Some? && Run(Next(s, x).value, events).Some?
    && s.txns[x].op.id in Run(Next(s, x).value, events).value.db.snapshots
  }

  ghost function Taken(s: State, x: nat, events: seq<Event>): SnapshotRow
    requires Takes(s, x, events)
  {
    Run(Next(s, x).value, events).value.db.snapshots[s.txns[x].op.id]
  }

  lemma TakenCopies(s: State, x: nat, events: seq<Event>) returns (found: map<UUID, MessageRow>)
    requires Inv(s) && Takes(s, x, events)
    ensures Found(s.db, s.txns[x].conversation, s.txns[x].op.copied, found)
    ensures CopiesOf(Taken(s, x, events), s.txns[x].conversation, s.txns[x].op.copied, found)
  {
    var a, s1 := s.txns[x], Next(s, x).value;
    FetchTracked(s, x);
    NextKeeps(s, x);
    found := s1.txns[x].stage.found;
    RunTracked(s1, events, x, a.conversation, a.op, found);
    assert TxnInv(s.db, a);
    OnceCommitted(Run(s1, events).value, x, a.conversation, a.op, found);
  }

  lemma OnceCommitted(r: State, x: nat, c: UUID, op: Operation, found: map<UUID, MessageRow>)
    requires op.Snapshot? && Tracked(r, x, c, op, found) && op.id in r.db.snapshots
    ensures CopiesOf(r.db.snapshots[op.id], c, op.copied, found)
  {
  }

  lemma RowsReadableIsReadable(t: Tables)
    requires RowsReadable(t)
    ensures Readable(t)
  {
    forall m | m in t.messages ensures Stored(t.messages[m].columns) { assert StoredRow(t.messages[m]); }
  }

  /**
   * If a snapshot is there after a run that began with the fetch of its messages, it lists the
   * requested ids in order, duplicates kept, each message exactly as it was stored at the fetch.
   */
  lemma SnapshotListsMessages(s: State, x: nat, events: seq<Event>, i: nat)
    requires Inv(s) && AllReadable(s) && Takes(s, x, events)
    ensures var copied, row := s.txns[x].op.copied, Taken(s, x, events);
            && row.conversation == s.txns[x].conversation
            && (i in row.items <==> i < |copied|)
            && (i < |copied| ==>
                  && copied[i] in s.db.messages
                  && SnapshotMessage(row.conversation, row.items[i]) == ToMessage(copied[i], s.db.messages[copied[i]]))
  {
    var c, copied := s.txns[x].conversation, s.txns[x].op.copied;
    var found := TakenCopies(s, x, events);
    RowsReadableIsReadable(s.db);
    if i < |copied| {
      CopiesFaithful(s.db, c, copied, found, Taken(s, x, events), i);
    }
  }

  /** The row an append commits under each of its ids. */
  lemma AppendedRow(s: State, x: nat, i: nat)
    requires Inv(s) && AllReadable(s) && x in s.txns && s.txns[x].stage.ReadyToAppend?
    requires s.txns[x].op.Append? && i < |s.txns[x].op.ids|
    ensures var a, t := s.txns[x], Commit(s, x).db;
            && |a.op.rows| == |a.op.ids| && a.op.ids[i] in t.messages && t.messages[a.op.ids[i]] == a.op.rows[i]
            && ToMessage(a.op.ids[i], a.op.rows[i]).Some?
  {
    var a := s.txns[x];
    assert TxnInv(s.db, a);
    assert a.op.ids[..|a.op.ids|] == a.op.ids;
    assert a.op.ids[i] in Elements(a.op.ids);
    assert Decodes(a.op.rows[i]);
  }

  /** Between its append and the fetch of a snapshot a message keeps its row. */
  lemma RowUnchanged(s: State, x: nat, i: nat, between: seq<Event>)
    requires Inv(s) && AllReadable(s) && x in s.txns && s.txns[x].stage.ReadyToAppend?
    requires s.txns[x].op.Append? && i < |s.txns[x].op.ids| == |s.txns[x].op.rows|
    requires NeverDrawn(Commit(s, x), between, s.txns[x].op.ids[i]) && Run(Commit(s, x), between).Some?
    ensures var a, r := s.txns[x], Run(Commit(s, x), between).value;
            && Inv(r) && AllReadable(r)
            && (a.op.ids[i] in r.db.messages ==> r.db.messages[a.op.ids[i]] == a.op.rows[i])
  {
    AppendedRow(s, x, i);
    CommitKeeps(s, x);
    CommitReadable(s, x);
    MessagesOnlyVanish(Commit(s, x), between, s.txns[x].op.ids[i]);
    RunKeeps(Commit(s, x), between);
    RunReadable(Commit(s, x), between);
  }

  /**
   * From append to snapshot to listing: whatever ran between the append and the fetch, and runs after
   * it, a committed snapshot lists the message as the append returned it, deleted since or not.
   */
  lemma SnapshotListsAppended(s: State, x: nat, i: nat, between: seq<Event>, y: nat, j: nat, later: seq<Event>)
    requires Inv(s) && AllReadable(s) && x in s.txns && s.txns[x].stage.ReadyToAppend?
    requires s.txns[x].op.Append? && i < |s.txns[x].op.ids| == |s.txns[x].op.rows|
    requires NeverDrawn(Commit(s, x), between, s.txns[x].op.ids[i]) && Run(Commit(s, x), between).Some?
    requires var r := Run(Commit(s, x), between).value;
             && Takes(r, y, later)
             && j < |r.txns[y].op.copied| && r.txns[y].op.copied[j] == s.txns[x].op.ids[i]
    ensures var row := Taken(Run(Commit(s, x), between).value, y, later);
            && j in row.items
            && SnapshotMessage(row.conversation, row.items[j]) == ToMessage(s.txns[x].op.ids[i], s.txns[x].op.rows[i])
  {
    RowUnchanged(s, x, i, between);
    SnapshotListsMessages(Run(Commit(s, x), between).value, y, later, j);
  }

  /** Every page of a snapshot's listing, once there, is the same for ever. */
  lemma SnapshotPagesFixed(s: State, events: seq<Event>, id: UUID, size: int32, after: Option<int>)
    requires Inv(s) && Run(s, events).Some? && id in s.db.snapshots
    ensures SnapshotPage(Run(s, events).value.db, id, size, after) == SnapshotPage(s.db, id, size, after)
    ensures SnapshotIDPage(Run(s, events).value.db, id, size, after) == SnapshotIDPage(s.db, id, size, after)
  {
    SnapshotsImmutable(s, events, id);
  }
}
