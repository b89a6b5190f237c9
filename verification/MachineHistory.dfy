/** What a run of the machine preserves from one state to a later one. */
module MachineHistory {
  import opened Base
  import opened Effects
  import opened Machine
  import opened MachineCommit
  import opened MachineInvariant
  import opened MachineRuns
  import opened MachineSteps
  import opened RangeOps
  import Rows
  import opened Tables

  // ---------------------------------------------------------------- versions

  /** Either nothing about the conversation changes or its version rises by exactly one. */
  ghost predicate VersionMoves(t: Tables, u: Tables, c: UUID) {
    || (Version(u, c) == Version(t, c) && Order(u, c) == Order(t, c) && (c in u.conversations <==> c in t.conversations))
    || Version(u, c) == Version(t, c) + 1
  }

  lemma StepMovesVersion(s: State, e: Event, c: UUID)
    requires Inv(s) && Step(s, e).Some?
    ensures VersionMoves(s.db, Step(s, e).value.db, c)
  {
    var t, u := s.db, Step(s, e).value.db;
    StepIsOneOperation(s, e);
    if Quiet(t, u) {
      DrawingKeepsOrder(t, u.nextPosition, c);
    } else {
      var a := s.txns[e.x];
      if !SnapshotTaken(t, u, a) && a.conversation != c {
        OtherItems(t, u, a.conversation, c);
      }
    }
  }

  /** Two states of a run with the same version of a conversation have the same order and count. */
  lemma {:induction false} VersionIdentifiesOrder(s: State, events: seq<Event>, c: UUID)
    requires Inv(s) && Run(s, events).Some?
    ensures var t, u := s.db, Run(s, events).value.db;
            && Version(t, c) <= Version(u, c)
            && (Version(t, c) == Version(u, c) ==>
                  && Order(t, c) == Order(u, c)
                  && (c in t.conversations <==> c in u.conversations)
                  && (c in t.conversations ==> t.conversations[c].messageCount == u.conversations[c].messageCount))
  {
    RunKeeps(s, events);
    if events != [] {
      var before := events[..|events| - 1];
      VersionIdentifiesOrder(s, before, c);
      RunKeeps(s, before);
      StepMovesVersion(Run(s, before).value, events[|events| - 1], c);
    }
  }

  // ---------------------------------------------------------------- the place of an appended batch

  lemma BatchPositions(t: Tables, a: Txn, p: nat, q: nat)
    requires ItemsFit(t) && TxnInv(t, a) && a.stage.ReadyToAppend? && p in a.before && q in a.writes.items
    ensures var m := ItemsOf(Apply(t, a.writes).items, a.conversation);
            && p in m && m[p] == a.before[p] && q in m && m[q] == a.writes.items[q].message && p < q < t.nextPosition
  {
    AppendOnlyAdds(t, a);
  }

  /** In the new order every id committed before the first insertion precedes every id of the batch. */
  lemma BatchComesBehind(s: State, x: nat, p: nat, q: nat)
    requires Inv(s) && x in s.txns && s.txns[x].stage.ReadyToAppend?
    requires p in s.txns[x].before && q in s.txns[x].writes.items
    ensures var a := s.txns[x];
            Rows.Precedes(Order(Commit(s, x).db, a.conversation), a.before[p], a.writes.items[q].message)
  {
    var a := s.txns[x];
    BatchPositions(s.db, a, p, q);
    var m := ItemsOf(Apply(s.db, a.writes).items, a.conversation);
    Rows.PositionsOrder(m, s.db.nextPosition, p, q);
  }

  /** Once its first item is in, an append remembers what the conversation held then, until it ends. */
  ghost predicate Remembers(s: State, x: nat, c: UUID, ids: seq<UUID>, items: map<nat, UUID>) {
    x in s.txns ==>
      var a := s.txns[x];
      && a.op.Append? && a.op.ids == ids && a.conversation == c && a.before == items
      && (a.stage.ReadyToAppend? || (a.stage.Appending? && a.stage.k > 0))
  }

  lemma OwnStepRemembers(s: State, x: nat, c: UUID, ids: seq<UUID>, items: map<nat, UUID>)
    requires Inv(s) && x in s.txns && Remembers(s, x, c, ids, items) && !ReadyToCommit(s.txns[x]) && Next(s, x).Some?
    ensures Remembers(Next(s, x).value, x, c, ids, items)
  {
    var a := s.txns[x];
    assert TxnInv(s.db, a);
    if a.stage.k < a.stage.m {
      AppendItemResult(s, x);
    } else if a.stage.m < |a.op.ids| {
      AppendMessageResult(s, x);
    }
  }

  lemma StepRemembers(s: State, e: Event, x: nat, c: UUID, ids: seq<UUID>, items: map<nat, UUID>)
    requires Inv(s) && Remembers(s, x, c, ids, items) && Step(s, e).Some? && !(e.Begin? && e.x == x)
    ensures Remembers(Step(s, e).value, x, c, ids, items)
  {
    if e.Advance? && !ReadyToCommit(s.txns[e.x]) {
      if e.x == x {
        OwnStepRemembers(s, x, c, ids, items);
      } else {
        NextWithoutCommit(s, e.x);
      }
    }
  }

  lemma {:induction false} RunRemembers(s: State, events: seq<Event>, x: nat, c: UUID, ids: seq<UUID>, items: map<nat, UUID>)
    requires Inv(s) && Remembers(s, x, c, ids, items) && Run(s, events).Some?
    requires forall i :: 0 <= i < |events| ==> !(events[i].Begin? && events[i].x == x)
    ensures Remembers(Run(s, events).value, x, c, ids, items)
  {
    if events != [] {
      var before := events[..|events| - 1];
      RunRemembers(s, before, x, c, ids, items);
      RunKeeps(s, before);
      StepRemembers(Run(s, before).value, events[|events| - 1], x, c, ids, items);
    }
  }

  lemma FirstItemRemembers(s: State, x: nat)
    requires x in s.txns && s.txns[x].op.Append? && s.txns[x].stage.Appending? && s.txns[x].stage.k == 0 < s.txns[x].stage.m
    requires Next(s, x).Some?
    ensures Remembers(Next(s, x).value, x, s.txns[x].conversation, s.txns[x].op.ids, ItemsOf(s.db.items, s.txns[x].conversation))
  {
    AppendItemResult(s, x);
  }

  lemma OwnListed(t: Tables, a: Txn, m: UUID) returns (q: nat)
    requires TxnInv(t, a) && a.stage.ReadyToAppend? && m in a.op.ids
    ensures q in a.writes.items && a.writes.items[q].message == m
  {
    assert a.op.ids[..|a.op.ids|] == a.op.ids;
    OwnMembers(t, a.writes, a.conversation, a.op.ids, m);
    q :| q in a.writes.items && a.writes.items[q] == Item(a.conversation, m);
  }

  lemma ListedAt(t: Tables, c: UUID, m: UUID) returns (p: nat)
    requires m in Order(t, c)
    ensures p in ItemsOf(t.items, c) && ItemsOf(t.items, c)[p] == m
  {
    Rows.OrderedMembers(ItemsOf(t.items, c), t.nextPosition, m);
    p :| p in ItemsOf(t.items, c) && ItemsOf(t.items, c)[p] == m;
  }

  /**
   * Whatever runs between an append's first item and its commit: everything the conversation held
   * when that item was inserted precedes every message of the batch in the order the commit leaves.
   */
  lemma BatchFollowsCommitted(s: State, x: nat, events: seq<Event>, m: UUID, b: UUID)
    requires Inv(s) && x in s.txns && s.txns[x].op.Append? && s.txns[x].stage.Appending?
    requires s.txns[x].stage.k == 0 < s.txns[x].stage.m && Next(s, x).Some? && Run(Next(s, x).value, events).Some?
    requires forall i :: 0 <= i < |events| ==> !(events[i].Begin? && events[i].x == x)
    requires var r := Run(Next(s, x).value, events).value; x in r.txns && r.txns[x].stage.ReadyToAppend?
    requires m in Order(s.db, s.txns[x].conversation) && b in s.txns[x].op.ids
    ensures Rows.Precedes(Order(Commit(Run(Next(s, x).value, events).value, x).db, s.txns[x].conversation), m, b)
  {
    var c, ids := s.txns[x].conversation, s.txns[x].op.ids;
    var s1 := Next(s, x).value;
    var r := Run(s1, events).value;
    FirstItemRemembers(s, x);
    NextKeeps(s, x);
    RunRemembers(s1, events, x, c, ids, ItemsOf(s.db.items, c));
    RunKeeps(s1, events);
    assert TxnInv(r.db, r.txns[x]);
    var p := ListedAt(s.db, c, m);
    var q := OwnListed(r.db, r.txns[x], b);
    BatchComesBehind(r, x, p, q);
  }

  // ---------------------------------------------------------------- identifiers

  ghost predicate Draws(op: Operation, m: UUID) {
    op.Append? && m in op.ids
  }

  /** No transaction in flight, and none begun later, draws `m`: uuid.New does not repeat itself. */
  ghost predicate NeverDrawn(s: State, events: seq<Event>, m: UUID) {
    && (forall x :: x in s.txns ==> !Draws(s.txns[x].op, m))
    && (forall i :: 0 <= i < |events| && events[i].Begin? ==> !Draws(events[i].op, m))
  }

  /** A message can only disappear; while it is there its row does not change. */
  ghost predicate OnlyVanishes(t: Tables, u: Tables, m: UUID) {
    m in u.messages ==> m in t.messages && u.messages[m] == t.messages[m]
  }

  lemma CommitOnlyVanishes(t: Tables, u: Tables, a: Txn, m: UUID)
    requires CommitEffect(t, u, a) && !Draws(a.op, m)
    ensures OnlyVanishes(t, u, m)
  {
    assert a.op.Append? ==> m !in Elements(a.op.ids);
  }

  lemma StepOnlyVanishes(s: State, e: Event, m: UUID)
    requires Inv(s) && Step(s, e).Some? && NeverDrawn(s, [e], m)
    ensures OnlyVanishes(s.db, Step(s, e).value.db, m)
    ensures NeverDrawn(Step(s, e).value, [], m)
  {
    assert [e][0] == e;
    if e.Advance? {
      if ReadyToCommit(s.txns[e.x]) {
        CommitKeeps(s, e.x);
        CommitOnlyVanishes(s.db, Commit(s, e.x).db, s.txns[e.x], m);
      } else {
        NextWithoutCommit(s, e.x);
      }
    }
  }

  lemma {:induction false} MessagesOnlyVanish(s: State, events: seq<Event>, m: UUID)
    requires Inv(s) && Run(s, events).Some? && NeverDrawn(s, events, m)
    ensures OnlyVanishes(s.db, Run(s, events).value.db, m)
    ensures NeverDrawn(Run(s, events).value, [], m)
  {
    if events != [] {
      var last := |events| - 1;
      var before := events[..last];
      assert NeverDrawn(s, before, m);
      MessagesOnlyVanish(s, before, m);
      RunKeeps(s, before);
      assert [events[last]][0] == events[last];
      StepOnlyVanishes(Run(s, before).value, events[last], m);
    }
  }

  /** An id that is not stored makes a replacement that inserts it fail: not found, if the bounds fit. */
  lemma MissingInsertFails(order: seq<UUID>, stored: set<UUID>, spec: ReplaceSpec, m: UUID)
    requires m in spec.insertIDs && m !in stored
    ensures ReplaceOutcome(order, stored, spec).Err?
    ensures ReplaceBounds(order, spec).Ok? ==> ReplaceOutcome(order, stored, spec) == Err(MessageNotFound)
  {
    assert m in Elements(spec.insertIDs);
  }

  lemma DroppedAreGone(s: State, x: nat, m: UUID)
    requires Inv(s) && x in s.txns && s.txns[x].op.Delete? && ReadyToCommit(s.txns[x]) && m in s.txns[x].stage.dropped
    ensures Inv(Commit(s, x)) && m !in Commit(s, x).db.messages
  {
    CommitKeeps(s, x);
    assert m in Elements(s.txns[x].stage.dropped);
  }

  lemma InsertOfMissingStops(r: State, y: nat, m: UUID)
    requires y in r.txns && r.txns[y].op.Replace? && r.txns[y].stage.OrderRead? && m in r.txns[y].op.replaceSpec.insertIDs
    requires m !in r.db.messages
    ensures Step(r, Advance(y)) == None
  {
    MissingInsertFails(r.txns[y].stage.order, StoredIDs(r.db, r.txns[y].conversation), r.txns[y].op.replaceSpec, m);
  }

  /**
   * After a deletion has committed, in every later state, any replacement that would insert one of
   * the deleted ids is left with nothing but its rollback.
   */
  lemma DeletedCannotReturn(s: State, x: nat, events: seq<Event>, m: UUID, y: nat)
    requires Inv(s) && x in s.txns && s.txns[x].op.Delete? && ReadyToCommit(s.txns[x])
    requires m in s.txns[x].stage.dropped && NeverDrawn(Commit(s, x), events, m)
    requires Run(Commit(s, x), events).Some?
    requires var r := Run(Commit(s, x), events).value;
             y in r.txns && r.txns[y].op.Replace? && r.txns[y].stage.OrderRead? && m in r.txns[y].op.replaceSpec.insertIDs
    ensures m !in Run(Commit(s, x), events).value.db.messages
    ensures Step(Run(Commit(s, x), events).value, Advance(y)) == None
  {
    DroppedAreGone(s, x, m);
    MessagesOnlyVanish(Commit(s, x), events, m);
    InsertOfMissingStops(Run(Commit(s, x), events).value, y, m);
  }

  lemma ReplaceKeepsMessages(t: Tables, u: Tables, a: Txn)
    requires a.op.Replace? && Rewritten(t, u, a)
    ensures u.messages == t.messages
  {
    assert t.messages - Elements(a.stage.dropped) == t.messages;
  }

  /** A replacement keeps every message stored, so what it took out of the order can be put back. */
  lemma ReplacedStaysStored(s: State, x: nat, c: UUID)
    requires Inv(s) && x in s.txns && s.txns[x].op.Replace? && ReadyToCommit(s.txns[x])
    ensures Commit(s, x).db.messages == s.db.messages && StoredIDs(Commit(s, x).db, c) == StoredIDs(s.db, c)
  {
    CommitKeeps(s, x);
    ReplaceKeepsMessages(s.db, Commit(s, x).db, s.txns[x]);
  }

  /** While a rewrite inserts its rows no constraint stops it, whatever else is in flight, until positions run out. */
  lemma RewriteAlwaysProceeds(events: seq<Event>, x: nat)
    requires Run(INITIAL, events).Some?
    requires var s := Run(INITIAL, events).value;
             x in s.txns && s.txns[x].stage.Rewriting? && s.txns[x].stage.written < |s.txns[x].stage.target|
    requires Run(INITIAL, events).value.db.nextPosition <= MAX_INT64
    ensures RewriteItem(Run(INITIAL, events).value, x).Some?
  {
    InitialHolds();
    RunKeeps(INITIAL, events);
    var s := Run(INITIAL, events).value;
    var a := s.txns[x];
    assert TxnInv(s.db, a);
    PlanTargets(s.db, a, a.stage.target, a.stage.dropped);
    RewriteNeverRefused(s.db, a.writes, a.conversation, a.stage.target, a.stage.written);
  }

  // ---------------------------------------------------------------- snapshots

  lemma StepKeepsSnapshot(s: State, e: Event, id: UUID)
    requires Inv(s) && Step(s, e).Some? && id in s.db.snapshots
    ensures id in Step(s, e).value.db.snapshots && Step(s, e).value.db.snapshots[id] == s.db.snapshots[id]
  {
    StepIsOneOperation(s, e);
  }

  /** A committed snapshot is never changed or removed. */
  lemma {:induction false} SnapshotsImmutable(s: State, events: seq<Event>, id: UUID)
    requires Inv(s) && Run(s, events).Some? && id in s.db.snapshots
    ensures id in Run(s, events).value.db.snapshots
    ensures Run(s, events).value.db.snapshots[id] == s.db.snapshots[id]
  {
    if events != [] {
      var before := events[..|events| - 1];
      SnapshotsImmutable(s, before, id);
      RunKeeps(s, before);
      StepKeepsSnapshot(Run(s, before).value, events[|events| - 1], id);
    }
  }
}
