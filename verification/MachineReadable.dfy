/** Every stored row decodes in every reachable state, and a snapshot lists what was appended. */
module MachineReadable {
  import opened Base
  import Columns
  import opened Listings
  import opened Machine
  import opened MachineInvariant
  import opened MachineRuns
  import opened MachineSteps
  import opened Tables

  ghost predicate Encoded(row: MessageRow) {
    exists b :: Columns.Encode(b) == Some(row.columns)
  }

  predicate Decodes(row: MessageRow) {
    Columns.Decode(row.columns).Some?
  }

  ghost predicate StoredRow(row: MessageRow) {
    Stored(row.columns)
  }

  lemma EncodedAndDecodes(row: MessageRow)
    requires Encoded(row) && Decodes(row)
    ensures StoredRow(row)
  {
    var b :| Columns.Encode(b) == Some(row.columns);
    DecodeCheckStores(b, row.columns);
  }

  /** All rows of an append are encoded bodies; those before the last inserted one have passed the decode check. */
  ghost predicate AppendReadable(a: Txn) {
    a.op.Append? ==>
      && (forall i :: 0 <= i < |a.op.rows| ==> Encoded(a.op.rows[i]))
      && (a.stage.Appending? ==> forall i :: 0 <= i < a.stage.m - 1 && i < |a.op.rows| ==> Decodes(a.op.rows[i]))
      && (a.stage.ReadyToAppend? ==> forall i :: 0 <= i < |a.op.rows| ==> Decodes(a.op.rows[i]))
  }

  ghost predicate SnapshotReadable(a: Txn) {
    && (a.stage.Fetched? ==> forall m :: m in a.stage.found ==> StoredRow(a.stage.found[m]))
    && (a.stage.Copying? ==> forall m :: m in a.stage.found ==> StoredRow(a.stage.found[m]))
  }

  ghost predicate RowsReadable(t: Tables) {
    && (forall m :: m in t.messages ==> StoredRow(t.messages[m]))
    && (forall s, i :: s in t.snapshots && i in t.snapshots[s].items ==> Stored(t.snapshots[s].items[i].columns))
  }

  ghost predicate AllReadable(s: State) {
    && RowsReadable(s.db)
    && forall x :: x in s.txns ==> AppendReadable(s.txns[x]) && SnapshotReadable(s.txns[x])
  }

  // ---------------------------------------------------------------- steps

  lemma MessageMoveReadable(a: Txn)
    requires a.op.Append? && a.stage.Appending? && a.stage.m < |a.op.ids| && a.stage.m < |a.op.rows|
    requires LastDecoded(a.op.rows, a.stage.m) && AppendReadable(a)
    ensures AppendReadable(WithAppendMessage(a))
  {
    forall i | 0 <= i < a.stage.m && i < |a.op.rows| ensures Decodes(a.op.rows[i]) { }
  }

  lemma AllDecoded(a: Txn)
    requires a.op.Append? && a.stage.Appending? && a.stage.m == |a.op.rows| && LastDecoded(a.op.rows, |a.op.rows|)
    requires AppendReadable(a)
    ensures AppendReadable(a.(stage := ReadyToAppend))
  {
    forall i | 0 <= i < |a.op.rows| ensures Decodes(a.op.rows[i]) { }
  }

  lemma CountMoveReadable(s: State, x: nat)
    requires x in s.txns && s.txns[x].op.Append? && s.txns[x].stage.Appending? && s.txns[x].stage.m == |s.txns[x].op.rows|
    requires AppendReadable(s.txns[x]) && CountAppended(s, x).Some?
    ensures AppendReadable(CountAppended(s, x).value.txns[x])
  {
    AllDecoded(s.txns[x]);
    assert CountAppended(s, x).value.txns[x].op == s.txns[x].op;
  }

  lemma AppendMoveReadable(s: State, x: nat)
    requires Inv(s) && x in s.txns && s.txns[x].op.Append? && !ReadyToCommit(s.txns[x]) && Next(s, x).Some?
    requires AppendReadable(s.txns[x]) && x in Next(s, x).value.txns
    ensures AppendReadable(Next(s, x).value.txns[x]) && !Next(s, x).value.txns[x].stage.Fetched?
    ensures !Next(s, x).value.txns[x].stage.Copying?
  {
    var a := s.txns[x];
    assert TxnInv(s.db, a);
    if a.stage.Appending? {
      if a.stage.k < a.stage.m {
        AppendItemResult(s, x);
      } else if a.stage.m < |a.op.ids| {
        AppendMessageResult(s, x);
        MessageMoveReadable(a);
      } else {
        CountMoveReadable(s, x);
      }
    }
  }

  /** A replace or delete is no append and fetches nothing. */
  lemma RewriteReadable(a: Txn)
    requires (a.op.Replace? || a.op.Delete?) && !a.stage.Fetched? && !a.stage.Copying?
    ensures AppendReadable(a) && SnapshotReadable(a)
  {
  }

  lemma RewriteStages(s: State, x: nat)
    requires x in s.txns && (s.txns[x].op.Replace? || s.txns[x].op.Delete?)
    requires !ReadyToCommit(s.txns[x]) && Next(s, x).Some? && x in Next(s, x).value.txns
    ensures var a := Next(s, x).value.txns[x]; a.op == s.txns[x].op && !a.stage.Fetched? && !a.stage.Copying?
  {
  }

  lemma RewriteMoveReadable(s: State, x: nat)
    requires x in s.txns && (s.txns[x].op.Replace? || s.txns[x].op.Delete?)
    requires !ReadyToCommit(s.txns[x]) && Next(s, x).Some? && x in Next(s, x).value.txns
    ensures AppendReadable(Next(s, x).value.txns[x]) && SnapshotReadable(Next(s, x).value.txns[x])
  {
    RewriteStages(s, x);
    RewriteReadable(Next(s, x).value.txns[x]);
  }

  lemma SnapshotMoveReadable(s: State, x: nat)
    requires x in s.txns && s.txns[x].op.Snapshot? && RowsReadable(s.db) && SnapshotReadable(s.txns[x])
    requires !ReadyToCommit(s.txns[x]) && Next(s, x).Some? && x in Next(s, x).value.txns
    ensures AppendReadable(Next(s, x).value.txns[x]) && SnapshotReadable(Next(s, x).value.txns[x])
  {
  }

  lemma CommittedMessagesReadable(t: Tables, a: Txn)
    requires TxnInv(t, a) && a.stage.ReadyToAppend? && AppendReadable(a)
    ensures forall m :: m in a.writes.messages ==> StoredRow(a.writes.messages[m])
  {
    assert a.op.ids[..|a.op.ids|] == a.op.ids;
    forall m | m in a.writes.messages ensures StoredRow(a.writes.messages[m]) {
      assert m in Elements(a.op.ids);
      var i :| 0 <= i < |a.op.ids| && a.op.ids[i] == m;
      EncodedAndDecodes(a.op.rows[i]);
    }
  }

  lemma CommittedSnapshotReadable(t: Tables, a: Txn)
    requires TxnInv(t, a) && a.op.Snapshot? && a.stage.Copying? && SnapshotReadable(a) && a.op.id in a.writes.snapshots
    ensures forall i :: i in a.writes.snapshots[a.op.id].items ==> Stored(a.writes.snapshots[a.op.id].items[i].columns)
  {
    var items, found := a.writes.snapshots[a.op.id].items, a.stage.found;
    forall i | i in items ensures Stored(items[i].columns) {
      CopyIsFaithful(a.op.copied[i], found[a.op.copied[i]]);
    }
  }

  lemma AppendCommitReadable(t: Tables, a: Txn)
    requires RowsReadable(t) && TxnInv(t, a) && a.stage.ReadyToAppend? && AppendReadable(a)
    ensures RowsReadable(Apply(t, a.writes))
  {
    CommittedMessagesReadable(t, a);
  }

  lemma RewriteCommitReadable(t: Tables, a: Txn)
    requires RowsReadable(t) && TxnInv(t, a) && a.stage.ReadyToRewrite?
    ensures RowsReadable(Apply(t, a.writes))
  {
  }

  lemma SnapshotCommitReadable(t: Tables, a: Txn)
    requires RowsReadable(t) && TxnInv(t, a) && a.op.Snapshot? && a.stage.Copying? && SnapshotReadable(a)
    ensures RowsReadable(Apply(t, a.writes))
  {
    CommittedSnapshotReadable(t, a);
  }

  lemma CommitReadable(s: State, x: nat)
    requires Inv(s) && AllReadable(s) && x in s.txns && ReadyToCommit(s.txns[x])
    ensures AllReadable(Commit(s, x))
  {
    var a := s.txns[x];
    assert TxnInv(s.db, a);
    if a.stage.ReadyToAppend? {
      AppendCommitReadable(s.db, a);
    } else if a.stage.Copying? {
      SnapshotCommitReadable(s.db, a);
    } else {
      RewriteCommitReadable(s.db, a);
    }
  }

  lemma BeginReadable(c: UUID, now: Time, op: Operation)
    requires Acceptable(c, op)
    ensures AppendReadable(Txn(c, now, op, Begun, {}, NO_WRITES, map[]))
  {
    if op.Append? {
      forall i | 0 <= i < |op.rows| ensures Encoded(op.rows[i]) { }
    }
  }

  lemma StepReadable(s: State, e: Event)
    requires Inv(s) && AllReadable(s) && Step(s, e).Some?
    ensures AllReadable(Step(s, e).value)
  {
    match e
    case Begin(x, c, now, op) => BeginReadable(c, now, op);
    case Abort(x) =>
    case Advance(x) =>
      if ReadyToCommit(s.txns[x]) {
        CommitReadable(s, x);
      } else {
        NextWithoutCommit(s, x);
        match s.txns[x].op
        case Append(_, _) => AppendMoveReadable(s, x);
        case Snapshot(_, _) => SnapshotMoveReadable(s, x);
        case _ => RewriteMoveReadable(s, x);
      }
  }

  lemma {:induction false} RunReadable(s: State, events: seq<Event>)
    requires Inv(s) && AllReadable(s) && Run(s, events).Some?
    ensures AllReadable(Run(s, events).value)
  {
    if events != [] {
      var before := events[..|events| - 1];
      RunReadable(s, before);
      RunKeeps(s, before);
      StepReadable(Run(s, before).value, events[|events| - 1]);
    }
  }

  /** In every reachable state every message and every snapshot item decodes. */
  lemma EveryRowDecodes(events: seq<Event>)
    requires Run(INITIAL, events).Some?
    ensures var t := Run(INITIAL, events).value.db;
            && Readable(t)
            && (forall m :: m in t.messages ==> ToMessage(m, t.messages[m]).Some?)
            && (forall s, i :: s in t.snapshots && i in t.snapshots[s].items ==>
                  SnapshotMessage(t.snapshots[s].conversation, t.snapshots[s].items[i]).Some?)
  {
    InitialHolds();
    RunReadable(INITIAL, events);
    var t := Run(INITIAL, events).value.db;
    forall m | m in t.messages ensures Stored(t.messages[m].columns) {
      assert StoredRow(t.messages[m]);
    }
  }

  /** So in every reachable state a listing fails only for a conversation or snapshot that does not exist. */
  lemma ListingsAlwaysDecode(events: seq<Event>, id: UUID, filter: Filter, size: int32, after: Option<int>)
    requires Run(INITIAL, events).Some?
    ensures var t := Run(INITIAL, events).value.db;
            && (MessagePage(t, id, filter, size, after).Ok? <==> id in t.conversations)
            && (SnapshotPage(t, id, size, after).Ok? <==> id in t.snapshots)
  {
    EveryRowDecodes(events);
    ListingsNeverFail(Run(INITIAL, events).value.db, id, filter, size, after);
  }
}
