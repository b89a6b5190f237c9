/**
 * Commits of the machine: each is one abstract operation on the committed order, and none disturbs
 * what another transaction in flight relies on. With the other steps this makes the invariant hold
 * in every reachable state.
 */
module MachineCommit {
  import opened Base
  import opened Effects
  import opened Machine
  import opened MachineInvariant
  import opened MachineSteps
  import Rows
  import opened Tables

  // ---------------------------------------------------------------- committing in another conversation

  lemma OtherItems(t: Tables, u: Tables, c: UUID, d: UUID)
    requires OthersKept(t, u, c) && c != d
    ensures Order(u, d) == Order(t, d) && StoredIDs(u, d) == StoredIDs(t, d)
    ensures Version(u, d) == Version(t, d) && (d in u.conversations <==> d in t.conversations)
    ensures forall p :: p in t.items && t.items[p].conversation == d ==> p in u.items && u.items[p] == t.items[p]
  {
    forall p | p in t.items && t.items[p].conversation == d ensures p in u.items && u.items[p] == t.items[p] {
      assert p in ItemsOf(t.items, d) && p in ItemsOf(u.items, d);
    }
  }

  /** The committed rows are rows from before or rows of the committed writes. */
  ghost predicate Within(t: Tables, u: Tables, w: Writes) {
    && u.items.Keys <= t.items.Keys + w.items.Keys
    && u.messages.Keys <= t.messages.Keys + w.messages.Keys
    && u.snapshots.Keys <= t.snapshots.Keys + w.snapshots.Keys
    && u.conversations.Keys >= t.conversations.Keys
  }

  lemma OwnItemsElsewhere(t: Tables, u: Tables, w: Writes, v: Writes, c: UUID, list: seq<UUID>)
    requires OwnItems(t, v, c, list) && Within(t, u, w) && w.items.Keys !! v.items.Keys && u.nextPosition == t.nextPosition
    ensures OwnItems(u, v, c, list)
  {
  }

  lemma AppendHoldsElsewhere(t: Tables, u: Tables, w: Writes, a: Txn, m: nat, k: nat)
    requires AppendHolds(t, a, m, k) && Within(t, u, w) && u.nextPosition == t.nextPosition
    requires w.items.Keys !! a.writes.items.Keys && w.messages.Keys !! a.writes.messages.Keys
    requires forall p :: p in t.items && t.items[p].conversation == a.conversation ==> p in u.items && u.items[p] == t.items[p]
    ensures AppendHolds(u, a, m, k)
  {
    OwnItemsElsewhere(t, u, w, a.writes, a.conversation, a.op.ids[..k]);
    forall i | 0 <= i < m ensures a.op.ids[i] !in u.messages {
      assert a.op.ids[i] in Elements(a.op.ids[..m]) by { assert a.op.ids[..m][i] == a.op.ids[i]; }
    }
  }

  lemma RewriteHoldsElsewhere(
    t: Tables, u: Tables, w: Writes, a: Txn, target: seq<UUID>, dropped: seq<UUID>, k: nat, gone: set<UUID>, c: UUID)
    requires RewriteHolds(t, a, target, dropped, k, gone) && Within(t, u, w) && OthersKept(t, u, c) && a.conversation != c
    requires w.items.Keys !! a.writes.items.Keys
    ensures RewriteHolds(u, a, target, dropped, k, gone)
  {
    OtherItems(t, u, c, a.conversation);
    OwnItemsElsewhere(t, u, w, a.writes, a.conversation, target[..k]);
  }

  lemma OtherConversation(t: Tables, u: Tables, w: Writes, c: UUID, a: Txn)
    requires TxnInv(t, a) && Within(t, u, w) && OthersKept(t, u, c) && a.conversation != c
    requires w.items.Keys !! a.writes.items.Keys && w.messages.Keys !! a.writes.messages.Keys
    requires w.snapshots.Keys !! a.writes.snapshots.Keys
    ensures TxnInv(u, a)
  {
    OtherItems(t, u, c, a.conversation);
    match a.stage
    case Begun => if a.op.Append? { AppendHoldsElsewhere(t, u, w, a, 0, 0); }
    case Appending(m, k) => AppendHoldsElsewhere(t, u, w, a, m, k);
    case ReadyToAppend => AppendHoldsElsewhere(t, u, w, a, |a.op.ids|, |a.op.ids|);
    case Rewriting(target, dropped, k) => RewriteHoldsElsewhere(t, u, w, a, target, dropped, k, {}, c);
    case MessagesDropped(target, dropped) =>
      RewriteHoldsElsewhere(t, u, w, a, target, dropped, |target|, Elements(dropped), c);
    case ReadyToRewrite(target, dropped) =>
      RewriteHoldsElsewhere(t, u, w, a, target, dropped, |target|, Elements(dropped), c);
    case _ =>
  }

  // ---------------------------------------------------------------- committing in the same conversation

  /** Under NO KEY UPDATE the neighbours in the conversation are beginning, appending or copying. */
  lemma AppendNeighbours(t: Tables, b: Txn, a: Txn)
    requires NoKeyUpdate in b.held && a.conversation == b.conversation && LocksCompatible(b, a) && TxnInv(t, a)
    ensures a.stage.Begun? || a.stage.Appending? || a.stage.Fetched? || a.stage.Copying?
  {
    assert NoKeyUpdate !in a.held && Update !in a.held;
  }

  lemma UncountedStays(t: Tables, u: Tables, b: Txn, a: Txn)
    requires Uncounted(t, a) && a.conversation == b.conversation && OneCreator(t, b, a) && !a.stage.Begun?
    requires u.conversations == t.conversations + b.writes.conversations && b.conversation in u.conversations
    ensures Uncounted(u, a)
  {
  }

  /** An append commits under NO KEY UPDATE: others in the conversation append or copy. */
  lemma SameConversationAppend(t: Tables, u: Tables, b: Txn, a: Txn)
    requires TxnInv(t, b) && b.stage.ReadyToAppend? && u == Apply(t, b.writes)
    requires TxnInv(t, a) && a.conversation == b.conversation && PairInv(t, b, a)
    ensures TxnInv(u, a)
  {
    AppendNeighbours(t, b, a);
    AppendOnlyAdds(t, b);
    if a.stage.Begun? {
      if a.op.Append? { AppendHoldsElsewhere(t, u, b.writes, a, 0, 0); }
    } else if a.stage.Appending? {
      AppendHoldsElsewhere(t, u, b.writes, a, a.stage.m, a.stage.k);
      UncountedStays(t, u, b, a);
    }
  }

  lemma AppendOnlyAdds(t: Tables, b: Txn)
    requires TxnInv(t, b) && b.stage.ReadyToAppend?
    ensures var u := Apply(t, b.writes);
            && Within(t, u, b.writes) && u.nextPosition == t.nextPosition && u.snapshots == t.snapshots
            && forall p :: p in t.items ==> p in u.items && u.items[p] == t.items[p]
  {
    PlusEmpty(t.snapshots);
    forall p | p in t.items ensures p !in b.writes.items { }
  }

  /** Under UPDATE the neighbours in the conversation hold no lock at all. */
  lemma RewriteNeighbours(t: Tables, b: Txn, a: Txn)
    requires Update in b.held && a.conversation == b.conversation && LocksCompatible(b, a) && TxnInv(t, a)
    ensures a.stage.Begun? || a.stage == Appending(0, 0) || a.stage.Fetched?
  {
    assert KeyShare !in a.held && NoKeyUpdate !in a.held && Update !in a.held;
  }

  /** A rewrite commits under UPDATE: others in the conversation have written nothing. */
  lemma SameConversationRewrite(t: Tables, u: Tables, b: Txn, a: Txn)
    requires TxnInv(t, b) && b.stage.ReadyToRewrite? && u == Apply(t, b.writes)
    requires TxnInv(t, a) && a.conversation == b.conversation && PairInv(t, b, a)
    ensures TxnInv(u, a)
  {
    RewriteNeighbours(t, b, a);
    if a.stage.Begun? {
      if a.op.Append? { NothingAppended(t, u, a); }
    } else if a.stage.Appending? {
      NothingAppended(t, u, a);
      UncountedStays(t, u, b, a);
    }
  }

  lemma NothingAppended(t: Tables, u: Tables, a: Txn)
    requires AppendHolds(t, a, 0, 0)
    ensures AppendHolds(u, a, 0, 0)
  {
    NoOwnItems(u, a.writes, a.conversation);
    assert a.op.ids[..0] == [];
  }

  lemma SnapshotElsewhere(t: Tables, u: Tables, a: Txn)
    requires TxnInv(t, a) && u == t.(snapshots := u.snapshots)
    requires forall id :: id in a.writes.snapshots && id !in t.snapshots ==> id !in u.snapshots
    ensures TxnInv(u, a)
  {
    match a.stage
    case Begun => if a.op.Append? { AppendHoldsSame(t, u, a, 0, 0); }
    case Appending(m, k) => AppendHoldsSame(t, u, a, m, k);
    case ReadyToAppend => AppendHoldsSame(t, u, a, |a.op.ids|, |a.op.ids|);
    case _ =>
  }

  lemma AppendHoldsSame(t: Tables, u: Tables, a: Txn, m: nat, k: nat)
    requires AppendHolds(t, a, m, k) && u == t.(snapshots := u.snapshots)
    ensures AppendHolds(u, a, m, k)
  {
  }

  // ---------------------------------------------------------------- what a commit does

  /** The batch is stored and in input order, behind everything committed before its first insertion. */
  ghost predicate Appended(t: Tables, u: Tables, a: Txn) {
    && a.op.Append?
    && var c, ids := a.conversation, a.op.ids;
       && OthersKept(t, u, c) && BatchStored(t, u, ids, a.op.rows) && u.snapshots == t.snapshots
       && Version(u, c) == Version(t, c) + 1
       && Rows.Only(Order(u, c), Elements(ids)) == ids
       && Rows.Except(Order(u, c), Elements(ids)) == Order(t, c)
       && (forall p, q :: p in a.before && q in a.writes.items ==> p < q)
  }

  /** The order is the plan's target, made from the order committed just before; dropped messages are gone. */
  ghost predicate Rewritten(t: Tables, u: Tables, a: Txn) {
    && a.stage.ReadyToRewrite?
    && var c, target, dropped := a.conversation, a.stage.target, a.stage.dropped;
       && OthersKept(t, u, c) && u.snapshots == t.snapshots
       && Version(u, c) == Version(t, c) + 1
       && PlanHolds(t, a, target, dropped) && Order(u, c) == target
       && u.messages == t.messages - Elements(dropped)
  }

  ghost predicate SnapshotTaken(t: Tables, u: Tables, a: Txn) {
    && a.op.Snapshot? && a.op.id in a.writes.snapshots && a.op.id !in t.snapshots
    && u == t.(snapshots := t.snapshots[a.op.id := a.writes.snapshots[a.op.id]])
  }

  lemma AppendCommits(t: Tables, a: Txn)
    requires Consistent(t) && TxnInv(t, a) && a.stage.ReadyToAppend?
    ensures Consistent(Apply(t, a.writes)) && Appended(t, Apply(t, a.writes), a)
  {
    CommitAppend(t, a.writes, a.conversation, a.op.ids, a.op.rows);
  }

  lemma RewriteCommits(t: Tables, a: Txn)
    requires Consistent(t) && TxnInv(t, a) && a.stage.ReadyToRewrite?
    ensures Consistent(Apply(t, a.writes)) && Rewritten(t, Apply(t, a.writes), a)
  {
    PlanTargets(t, a, a.stage.target, a.stage.dropped);
    CommitRewrite(t, a.writes, a.conversation, a.stage.target, Elements(a.stage.dropped));
    PlusEmpty(t.snapshots);
  }

  lemma SnapshotCommits(t: Tables, a: Txn)
    requires Consistent(t) && TxnInv(t, a) && a.op.Snapshot? && a.stage.Copying? && a.stage.done == |a.op.copied|
    ensures Consistent(Apply(t, a.writes)) && SnapshotTaken(t, Apply(t, a.writes), a)
  {
    var s := a.writes.snapshots[a.op.id];
    SnapshotComplete(s, |a.op.copied|);
    CommitSnapshot(t, a.writes, a.op.id, s);
  }

  // ---------------------------------------------------------------- the invariant after a commit

  lemma PairsAfterCommit(t: Tables, u: Tables, a: Txn, b: Txn)
    requires PairInv(t, a, b) && u.conversations.Keys >= t.conversations.Keys
    ensures PairInv(u, a, b)
  {
  }

  lemma OthersAfterCommit(s: State, x: nat, y: nat)
    requires Inv(s) && x in s.txns && y in s.txns && x != y && ReadyToCommit(s.txns[x])
    ensures TxnInv(Apply(s.db, s.txns[x].writes), s.txns[y])
  {
    var t, a, b := s.db, s.txns[x], s.txns[y];
    var u := Apply(t, a.writes);
    assert PairInv(t, a, b) && TxnInv(t, a) && TxnInv(t, b);
    if a.stage.Copying? {
      SnapshotCommits(t, a);
      SnapshotElsewhere(t, u, b);
    } else if a.conversation == b.conversation {
      if a.stage.ReadyToAppend? {
        SameConversationAppend(t, u, a, b);
      } else {
        SameConversationRewrite(t, u, a, b);
      }
    } else {
      if a.stage.ReadyToAppend? {
        AppendCommits(t, a);
      } else {
        RewriteCommits(t, a);
      }
      OtherConversation(t, u, a.writes, a.conversation, b);
    }
  }

  lemma CommitKeeps(s: State, x: nat)
    requires Inv(s) && x in s.txns && ReadyToCommit(s.txns[x])
    ensures Inv(Commit(s, x))
    ensures var a, u := s.txns[x], Commit(s, x).db;
            || (a.op.Append? && Appended(s.db, u, a))
            || ((a.op.Replace? || a.op.Delete?) && Rewritten(s.db, u, a))
            || (a.op.Snapshot? && SnapshotTaken(s.db, u, a))
  {
    var a := s.txns[x];
    if a.stage.Copying? {
      SnapshotCommits(s.db, a);
    } else if a.stage.ReadyToAppend? {
      AppendCommits(s.db, a);
    } else {
      RewriteCommits(s.db, a);
    }
    var r := Commit(s, x);
    forall y | y in r.txns ensures TxnInv(r.db, r.txns[y]) {
      OthersAfterCommit(s, x, y);
    }
    forall y, z | y in r.txns && z in r.txns && y != z ensures PairInv(r.db, r.txns[y], r.txns[z]) {
      PairsAfterCommit(s.db, r.db, r.txns[y], r.txns[z]);
    }
  }
}
