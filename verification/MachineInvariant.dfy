/** What holds in every reachable state of the machine, transaction by transaction and pair by pair. */
module MachineInvariant {
  import opened Base
  import opened Effects
  import opened Machine
  import opened RangeOps
  import opened Tables

  /** The plan of a rewrite is the outcome of its operation on the committed order. */
  ghost predicate PlanHolds(t: Tables, a: Txn, target: seq<UUID>, dropped: seq<UUID>) {
    match a.op
    case Replace(spec) =>
      var r := ReplaceOutcome(Order(t, a.conversation), StoredIDs(t, a.conversation), spec);
      r.Ok? && r.value.order == target && dropped == []
    case Delete(spec) => DeleteOutcome(Order(t, a.conversation), spec) == Ok(Deletion(target, dropped))
    case _ => false
  }

  ghost predicate AppendHolds(t: Tables, a: Txn, m: nat, k: nat) {
    && a.op.Append? && a.op.rows != [] && |a.op.ids| == |a.op.rows|
    && (forall i :: 0 <= i < |a.op.rows| ==> a.op.rows[i].conversation == a.conversation)
    && AppendWrites(t, a.writes, a.conversation, a.op.ids, a.op.rows, m, k)
    && (k == 0 ==> a.before == map[] && a.writes.items == map[])
    && (forall p :: p in a.before ==> p in t.items && t.items[p] == Item(a.conversation, a.before[p]))
    && (forall p, q :: p in a.before && q in a.writes.items ==> p < q)
  }

  ghost predicate Uncounted(t: Tables, a: Txn) {
    RowPending(t, a.writes, a.conversation, a.now)
  }

  ghost predicate RewriteHolds(t: Tables, a: Txn, target: seq<UUID>, dropped: seq<UUID>, k: nat, gone: set<UUID>) {
    && PlanHolds(t, a, target, dropped)
    && RewriteWrites(t, a.writes, a.conversation, target, k, gone)
  }

  ghost predicate SnapshotHolds(t: Tables, a: Txn, found: map<UUID, MessageRow>, k: nat) {
    && a.op.Snapshot? && k <= |a.op.copied| && k <= 0x8000_0000 && a.conversation in t.conversations && a.op.id !in t.snapshots
    && a.op.id in a.writes.snapshots
    && var s := a.writes.snapshots[a.op.id];
       && a.writes == NO_WRITES.(snapshots := map[a.op.id := s])
       && s.conversation == a.conversation && (forall i: nat :: i in s.items <==> i < k)
       && forall i :: 0 <= i < k ==> a.op.copied[i] in found && CopyOf(a.op.copied[i], found[a.op.copied[i]]) == Some(s.items[i])
  }

  ghost predicate TxnInv(t: Tables, a: Txn) {
    match a.stage
    case Begun =>
      a.writes == NO_WRITES && a.held == {} && a.before == map[]
      && (a.op.Append? ==> AppendHolds(t, a, 0, 0))
    case Appending(m, k) =>
      m <= k + 1 && AppendHolds(t, a, m, k) && Uncounted(t, a) && a.held == (if m > 0 then {KeyShare} else {})
    case ReadyToAppend =>
      && a.op.Append? && AppendHolds(t, a, |a.op.ids|, |a.op.ids|) && a.held == {KeyShare, NoKeyUpdate}
      && Counted(t, a.writes, a.conversation, |Order(t, a.conversation)| + |a.op.ids|)
    case Locked =>
      a.writes == NO_WRITES && a.held == {Update} && a.conversation in t.conversations
      && (a.op.Replace? || a.op.Delete?)
    case OrderRead(order) =>
      a.writes == NO_WRITES && a.held == {Update} && a.conversation in t.conversations
      && (a.op.Replace? || a.op.Delete?) && order == Order(t, a.conversation)
    case Planned(target, dropped) =>
      a.writes == NO_WRITES && a.held == {Update} && a.conversation in t.conversations
      && PlanHolds(t, a, target, dropped)
    case Rewriting(target, dropped, k) =>
      a.held == {Update} && a.writes.conversations == map[] && RewriteHolds(t, a, target, dropped, k, {})
    case MessagesDropped(target, dropped) =>
      a.held == {Update} && a.writes.conversations == map[]
      && RewriteHolds(t, a, target, dropped, |target|, Elements(dropped))
    case ReadyToRewrite(target, dropped) =>
      && a.held == {Update, NoKeyUpdate} && RewriteHolds(t, a, target, dropped, |target|, Elements(dropped))
      && Counted(t, a.writes, a.conversation, |target|)
    case Fetched(found) =>
      a.writes == NO_WRITES && a.held == {} && a.op.Snapshot? && a.conversation in t.conversations
    case Copying(found, k) =>
      a.held == {KeyShare} && SnapshotHolds(t, a, found, k)
  }

  function Rank(m: Mode): nat {
    match m
    case KeyShare => 1
    case Share => 2
    case NoKeyUpdate => 3
    case Update => 4
  }

  /** The conflict table: ordered by strength, two locks conflict exactly if together they are strong enough. */
  lemma ConflictTable(a: Mode, b: Mode)
    ensures Conflicts(a, b) <==> Rank(a) + Rank(b) >= 5
    ensures Conflicts(a, b) <==> Conflicts(b, a)
  {
  }

  ghost predicate LocksCompatible(a: Txn, b: Txn) {
    a.conversation == b.conversation ==> forall h, g :: h in a.held && g in b.held ==> !Conflicts(h, g)
  }

  /** While one transaction is creating the conversation no other has got past its beginning. */
  ghost predicate OneCreator(t: Tables, a: Txn, b: Txn) {
    a.conversation == b.conversation && a.conversation !in t.conversations && a.conversation in a.writes.conversations
    ==> b.stage.Begun?
  }

  ghost predicate WritesApart(a: Txn, b: Txn) {
    && a.writes.items.Keys !! b.writes.items.Keys
    && a.writes.messages.Keys !! b.writes.messages.Keys
    && a.writes.snapshots.Keys !! b.writes.snapshots.Keys
  }

  ghost predicate PairInv(t: Tables, a: Txn, b: Txn) {
    LocksCompatible(a, b) && OneCreator(t, a, b) && WritesApart(a, b)
  }

  ghost predicate Inv(s: State) {
    && Consistent(s.db) && 0 < s.db.nextPosition
    && (forall x :: x in s.txns ==> TxnInv(s.db, s.txns[x]))
    && (forall x, y :: x in s.txns && y in s.txns && x != y ==> PairInv(s.db, s.txns[x], s.txns[y]))
  }

  // ---------------------------------------------------------------- drawing a position

  lemma AppendHoldsDraw(t: Tables, n: nat, a: Txn, m: nat, k: nat)
    requires AppendHolds(t, a, m, k) && t.nextPosition <= n
    ensures AppendHolds(t.(nextPosition := n), a, m, k)
  {
    OwnItemsGrow(t, a.writes, a.conversation, a.op.ids[..k], n);
  }

  lemma RewriteHoldsDraw(t: Tables, n: nat, a: Txn, target: seq<UUID>, dropped: seq<UUID>, k: nat, gone: set<UUID>)
    requires Consistent(t) && RewriteHolds(t, a, target, dropped, k, gone) && t.nextPosition <= n
    ensures RewriteHolds(t.(nextPosition := n), a, target, dropped, k, gone)
  {
    DrawingKeepsOrder(t, n, a.conversation);
    OwnItemsGrow(t, a.writes, a.conversation, target[..k], n);
  }

  lemma TxnInvDraw(t: Tables, n: nat, a: Txn)
    requires Consistent(t) && TxnInv(t, a) && t.nextPosition <= n
    ensures TxnInv(t.(nextPosition := n), a)
  {
    DrawingKeepsOrder(t, n, a.conversation);
    match a.stage
    case Begun => if a.op.Append? { AppendHoldsDraw(t, n, a, 0, 0); }
    case Appending(m, k) => AppendHoldsDraw(t, n, a, m, k);
    case ReadyToAppend => AppendHoldsDraw(t, n, a, |a.op.ids|, |a.op.ids|);
    case Rewriting(target, dropped, k) => RewriteHoldsDraw(t, n, a, target, dropped, k, {});
    case MessagesDropped(target, dropped) => RewriteHoldsDraw(t, n, a, target, dropped, |target|, Elements(dropped));
    case ReadyToRewrite(target, dropped) => RewriteHoldsDraw(t, n, a, target, dropped, |target|, Elements(dropped));
    case _ =>
  }

  // ---------------------------------------------------------------- one transaction moves

  /**
   * A step of one transaction that commits nothing: the others keep their invariants, so only the
   * mover's own invariant and its relation to each other transaction are left to show.
   */
  lemma LocalStep(s: State, x: nat, n: nat, a: Txn)
    requires Inv(s) && s.db.nextPosition <= n
    requires TxnInv(s.db.(nextPosition := n), a)
    requires forall y :: y in s.txns && y != x ==> PairInv(s.db, a, s.txns[y]) && PairInv(s.db, s.txns[y], a)
    ensures Inv(Put(s.(db := s.db.(nextPosition := n)), x, a))
  {
    var r := Put(s.(db := s.db.(nextPosition := n)), x, a);
    DrawingKeepsConsistent(s.db, n);
    forall y | y in r.txns ensures TxnInv(r.db, r.txns[y]) {
      if y != x { TxnInvDraw(s.db, n, s.txns[y]); }
    }
  }

  /** A step that takes a grantable lock and adds no rows keeps every pair. */
  lemma PairsAfterLock(s: State, x: nat, a: Txn, mode: Mode, b: Txn, y: nat)
    requires Inv(s) && x in s.txns && y in s.txns && x != y && b == s.txns[y]
    requires a.conversation == s.txns[x].conversation && a.held <= s.txns[x].held + {mode}
    requires mode in a.held ==> Grantable(s, x, a.conversation, mode)
    ensures LocksCompatible(a, b) && LocksCompatible(b, a)
  {
    assert PairInv(s.db, s.txns[x], b) && PairInv(s.db, b, s.txns[x]);
    if a.conversation == b.conversation {
      forall h, g | h in a.held && g in b.held ensures !Conflicts(h, g) && !Conflicts(g, h) {
        if h !in s.txns[x].held {
          assert y in Holders(s, b.conversation, g);
        }
      }
    }
  }
}
