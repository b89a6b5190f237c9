/**
 * When nothing conflicts an operation of the machine proceeds: what decides a deletion, and that an
 * operation the tables admit runs to its commit and has its effect.
 */
module MachineProgress {
  import opened Base
  import opened Effects
  import opened Machine
  import opened MachineCommit
  import opened MachineInvariant
  import opened MachineReadable
  import opened MachineRuns
  import opened MachineSteps
  import opened RangeLaws
  import opened RangeOps
  import Rows
  import opened SnapshotOutcome
  import opened Tables

  // ---------------------------------------------------------------- deletions

  /** A deletion that has read its order goes on exactly if the order splits as its bounds say. */
  lemma DeletionDecides(s: State, x: nat)
    requires x in s.txns && s.txns[x].op.Delete? && s.txns[x].stage.OrderRead? && NoDup(s.txns[x].stage.order)
    ensures var order, spec := s.txns[x].stage.order, s.txns[x].op.deleteSpec;
            && (Next(s, x).Some? <==> exists pre, mid, post :: DeleteFits(order, spec, pre, mid, post))
            && (forall pre, mid, post :: DeleteFits(order, spec, pre, mid, post) && Next(s, x).Some? ==>
                  Next(s, x).value.txns[x].stage == Planned(pre + post, mid))
  {
    var order, spec := s.txns[x].stage.order, s.txns[x].op.deleteSpec;
    if pre, mid, post :| DeleteFits(order, spec, pre, mid, post) {
      DeleteWithFit(order, spec, pre, mid, post);
    } else {
      DeleteWithoutFit(order, spec);
    }
    forall pre, mid, post | DeleteFits(order, spec, pre, mid, post) && Next(s, x).Some?
      ensures Next(s, x).value.txns[x].stage == Planned(pre + post, mid)
    {
      DeleteWithFit(order, spec, pre, mid, post);
    }
  }

  // ---------------------------------------------------------------- what an operation needs

  /** No other transaction works on the conversation. */
  ghost predicate Undisturbed(s: State, x: nat) {
    x in s.txns && forall y :: y in s.txns && y != x ==> s.txns[y].conversation != s.txns[x].conversation
  }

  lemma AlwaysGrantable(s: State, x: nat, mode: Mode)
    requires Undisturbed(s, x)
    ensures Grantable(s, x, s.txns[x].conversation, mode)
  {
  }

  /** The order a replacement or deletion is to leave. */
  ghost function Target(t: Tables, a: Txn): seq<UUID> {
    match a.op
    case Replace(spec) =>
      (match ReplaceOutcome(Order(t, a.conversation), StoredIDs(t, a.conversation), spec) case Ok(r) => r.order case Err(_) => [])
    case Delete(spec) =>
      (match DeleteOutcome(Order(t, a.conversation), spec) case Ok(d) => d.remaining case Err(_) => [])
    case _ => []
  }

  /** The order splits as the bounds say and the inserted ids are stored and make no repeat. */
  ghost predicate Admitted(t: Tables, a: Txn) {
    match a.op
    case Replace(spec) => ReplaceOutcome(Order(t, a.conversation), StoredIDs(t, a.conversation), spec).Ok?
    case Delete(spec) => DeleteOutcome(Order(t, a.conversation), spec).Ok?
    case _ => true
  }

  /** The items that are still to be inserted. */
  ghost function ItemsLeft(t: Tables, a: Txn): int {
    match a.op
    case Append(ids, _) =>
      (match a.stage case Begun => |ids| case Appending(_, k) => |ids| - k case _ => 0)
    case Snapshot(_, _) => 0
    case _ =>
      (match a.stage
       case Rewriting(target, _, k) => |target| - k
       case MessagesDropped(_, _) => 0
       case ReadyToRewrite(_, _) => 0
       case _ => |Target(t, a)|)
  }

  /** The statements that are still to run before the commit. */
  ghost function StepsLeft(t: Tables, a: Txn): int {
    match a.op
    case Append(ids, _) =>
      (match a.stage case Begun => 2 * |ids| + 2 case Appending(m, k) => 2 * |ids| - m - k + 1 case _ => 0)
    case Snapshot(_, copied) =>
      (match a.stage case Begun => |copied| + 2 case Fetched(_) => |copied| + 1 case Copying(_, k) => |copied| - k case _ => 0)
    case _ =>
      (match a.stage
       case Begun => |Target(t, a)| + 6
       case Locked => |Target(t, a)| + 5
       case OrderRead(_) => |Target(t, a)| + 4
       case Planned(target, _) => |target| + 3
       case Rewriting(target, _, k) => |target| - k + 2
       case MessagesDropped(_, _) => 1
       case _ => 0)
  }

  /** Positions, counter and version do not run out. */
  ghost predicate Room(t: Tables, a: Txn) {
    && t.nextPosition + ItemsLeft(t, a) <= MAX_INT64 + 1
    && Version(t, a.conversation) < MAX_INT64
    && (a.op.Append? ==> |Order(t, a.conversation)| + |a.op.ids| <= MAX_INT64)
    && |Target(t, a)| <= MAX_INT64
  }

  /** A non-empty batch of encoded bodies that decode, under identifiers in use nowhere. */
  ghost predicate AppendNeeds(s: State, x: nat)
    requires x in s.txns && s.txns[x].op.Append?
  {
    var ids, rows := s.txns[x].op.ids, s.txns[x].op.rows;
    && rows != [] && |ids| == |rows| && NoDup(ids)
    && (forall i :: 0 <= i < |rows| ==>
          rows[i].conversation == s.txns[x].conversation && Encoded(rows[i]) && Decodes(rows[i]))
    && (forall i :: 0 <= i < |ids| ==> ids[i] !in s.db.messages)
    && (forall i, y :: 0 <= i < |ids| && y in s.txns && y != x ==> ids[i] !in s.txns[y].writes.messages)
  }

  /** The messages are stored and the snapshot's identifier is in use nowhere; order_idx is an INTEGER. */
  ghost predicate SnapshotNeeds(s: State, x: nat)
    requires x in s.txns && s.txns[x].op.Snapshot?
  {
    var a := s.txns[x];
    var id, copied := a.op.id, a.op.copied;
    && a.conversation in s.db.conversations && 0 < |copied| <= 0x8000_0000
    && Elements(copied) <= StoredIDs(s.db, a.conversation) && id !in s.db.snapshots
    && (forall y :: y in s.txns && y != x ==> id !in s.txns[y].writes.snapshots)
    && (a.stage.Fetched? ==> Found(s.db, a.conversation, copied, a.stage.found))
    && (a.stage.Copying? ==> Found(s.db, a.conversation, copied, a.stage.found))
  }

  ghost predicate Feasible(s: State, x: nat) {
    && x in s.txns && Room(s.db, s.txns[x])
    && match s.txns[x].op
       case Append(_, _) => AppendNeeds(s, x)
       case Snapshot(_, _) => SnapshotNeeds(s, x)
       case _ => s.txns[x].conversation in s.db.conversations && Admitted(s.db, s.txns[x])
  }

  /** Another statement has run: it used at most the position it was counted for, and fewer are left. */
  ghost predicate Closer(s: State, r: State, x: nat) {
    && OnlyMoves(s, r, x)
    && r.db.nextPosition + ItemsLeft(r.db, r.txns[x]) == s.db.nextPosition + ItemsLeft(s.db, s.txns[x])
    && 0 <= StepsLeft(r.db, r.txns[x]) < StepsLeft(s.db, s.txns[x])
  }

  // ---------------------------------------------------------------- append

  lemma AppendItemFree(t: Tables, w: Writes, c: UUID, ids: seq<UUID>, rows: seq<MessageRow>, m: nat, k: nat)
    requires ItemsFit(t) && AppendWrites(t, w, c, ids, rows, m, k) && k < m && NoDup(ids) && ids[k] !in t.messages
    requires c in Apply(t, w).conversations && t.nextPosition <= MAX_INT64
    ensures InsertItem(t, w, t.nextPosition, Item(c, ids[k])).Some?
  {
    var items := Apply(t, w).items;
    assert ids[..m][k] == ids[k];
    assert ids[k] in Elements(ids[..m]);
    forall p | p in items ensures items[p] != Item(c, ids[k]) {
      if p in w.items {
        OwnMembers(t, w, c, ids[..k], ids[k]);
        assert ids[k] !in ids[..k];
      } else {
        assert ItemFits(t, p);
      }
    }
  }

  lemma AppendMessageFree(t: Tables, w: Writes, c: UUID, ids: seq<UUID>, rows: seq<MessageRow>, m: nat)
    requires AppendWrites(t, w, c, ids, rows, m, m) && m < |ids| && NoDup(ids) && ids[m] !in t.messages
    requires c in Apply(t, w).conversations && rows[m].conversation == c
    ensures InsertMessage(t, w, ids[m], rows[m]).Some?
  {
    assert ids[m] !in ids[..m];
    assert ids[m] !in Elements(ids[..m]);
  }

  lemma RowThere(t: Tables, a: Txn)
    requires Uncounted(t, a)
    ensures a.conversation in Apply(t, a.writes).conversations
  {
  }

  lemma AppendItemEnabled(s: State, x: nat)
    requires Consistent(s.db) && Feasible(s, x) && s.txns[x].op.Append? && s.txns[x].stage.Appending?
    requires s.txns[x].stage.k < s.txns[x].stage.m && TxnInv(s.db, s.txns[x])
    ensures AppendItem(s, x).Some?
  {
    var a := s.txns[x];
    RowThere(s.db, a);
    AppendItemFree(s.db, a.writes, a.conversation, a.op.ids, a.op.rows, a.stage.m, a.stage.k);
  }

  lemma AppendMessageEnabled(s: State, x: nat)
    requires Undisturbed(s, x) && Feasible(s, x) && s.txns[x].op.Append? && s.txns[x].stage.Appending?
    requires s.txns[x].stage.k == s.txns[x].stage.m < |s.txns[x].op.ids| && TxnInv(s.db, s.txns[x])
    ensures AppendMessage(s, x) == Some(Put(s, x, WithAppendMessage(s.txns[x])))
  {
    var a := s.txns[x];
    RowThere(s.db, a);
    AlwaysGrantable(s, x, KeyShare);
    AppendMessageFree(s.db, a.writes, a.conversation, a.op.ids, a.op.rows, a.stage.m);
    assert a.stage.m > 0 ==> Decodes(a.op.rows[a.stage.m - 1]);
    AppendMessageGoes(s, x);
  }

  lemma CountEnabled(t: Tables, a: Txn)
    requires Consistent(t) && Uncounted(t, a) && Room(t, a) && a.op.Append?
    ensures AddCount(t, a.writes, a.conversation, |a.op.ids|, a.now).Some?
  {
    OrderSound(t, a.conversation);
    PendingRow(t, a.writes, a.conversation, a.now);
  }

  lemma CountAppendedEnabled(s: State, x: nat)
    requires Consistent(s.db) && Undisturbed(s, x) && Feasible(s, x) && s.txns[x].op.Append? && s.txns[x].stage.Appending?
    requires s.txns[x].stage.m == s.txns[x].stage.k == |s.txns[x].op.ids| && TxnInv(s.db, s.txns[x])
    ensures CountAppended(s, x).Some?
  {
    var a := s.txns[x];
    AlwaysGrantable(s, x, NoKeyUpdate);
    CountEnabled(s.db, a);
    assert |a.op.rows| > 0 ==> Decodes(a.op.rows[|a.op.rows| - 1]);
  }

  /** The stage that follows when nothing stops an append. */
  ghost predicate AppendFollows(t: Tables, a: Txn, u: Tables, b: Txn) {
    && a.op.Append?
    && match a.stage
       case Begun => b.stage == Appending(0, 0) && u == t
       case Appending(m, k) =>
         if k < m then b.stage == Appending(m, k + 1) && u == Draw(t)
         else if m < |a.op.ids| then b.stage == Appending(m + 1, k) && u == t
         else b.stage.ReadyToAppend? && m == k == |a.op.ids| && u == t
       case _ => false
  }

  lemma AppendFollowingIsCloser(s: State, r: State, x: nat)
    requires OnlyMoves(s, r, x) && AppendFollows(s.db, s.txns[x], r.db, r.txns[x])
    requires s.txns[x].stage.Appending? ==> s.txns[x].stage.m <= |s.txns[x].op.ids| && s.txns[x].stage.k <= |s.txns[x].op.ids|
    ensures Closer(s, r, x)
  {
  }

  lemma AppendBegunProceeds(s: State, x: nat)
    requires Undisturbed(s, x) && s.txns[x].op.Append? && s.txns[x].stage.Begun?
    ensures Next(s, x).Some? && x in Next(s, x).value.txns
    ensures AppendFollows(s.db, s.txns[x], Next(s, x).value.db, Next(s, x).value.txns[x])
  {
  }

  lemma AppendStagesAre(t: Tables, a: Txn)
    requires TxnInv(t, a) && a.op.Append? && !ReadyToCommit(a)
    ensures a.stage.Begun? || (a.stage.Appending? && a.stage.k <= a.stage.m <= |a.op.ids|)
    ensures a.stage.Appending? ==> a.stage.m <= a.stage.k + 1
  {
  }

  lemma ItemProceeds(s: State, x: nat)
    requires Consistent(s.db) && Feasible(s, x) && s.txns[x].op.Append? && s.txns[x].stage.Appending?
    requires s.txns[x].stage.k < s.txns[x].stage.m && TxnInv(s.db, s.txns[x])
    ensures Next(s, x).Some? && x in Next(s, x).value.txns
    ensures AppendFollows(s.db, s.txns[x], Next(s, x).value.db, Next(s, x).value.txns[x])
  {
    AppendItemEnabled(s, x);
    AppendItemResult(s, x);
    assert Next(s, x) == AppendItem(s, x);
  }

  lemma MessageFollows(s: State, x: nat)
    requires x in s.txns && s.txns[x].op.Append? && s.txns[x].stage.Appending?
    requires s.txns[x].stage.k == s.txns[x].stage.m < |s.txns[x].op.ids| && s.txns[x].stage.m < |s.txns[x].op.rows|
    requires AppendMessage(s, x) == Some(Put(s, x, WithAppendMessage(s.txns[x])))
    ensures Next(s, x).Some? && x in Next(s, x).value.txns
    ensures AppendFollows(s.db, s.txns[x], Next(s, x).value.db, Next(s, x).value.txns[x])
  {
    assert Next(s, x) == AppendMessage(s, x);
  }

  lemma MessageProceeds(s: State, x: nat)
    requires Undisturbed(s, x) && Feasible(s, x) && s.txns[x].op.Append? && s.txns[x].stage.Appending?
    requires s.txns[x].stage.k == s.txns[x].stage.m < |s.txns[x].op.ids| && TxnInv(s.db, s.txns[x])
    ensures Next(s, x).Some? && x in Next(s, x).value.txns
    ensures AppendFollows(s.db, s.txns[x], Next(s, x).value.db, Next(s, x).value.txns[x])
  {
    AppendMessageEnabled(s, x);
    MessageFollows(s, x);
  }

  lemma CountProceeds(s: State, x: nat)
    requires Consistent(s.db) && Undisturbed(s, x) && Feasible(s, x) && s.txns[x].op.Append? && s.txns[x].stage.Appending?
    requires s.txns[x].stage.m == s.txns[x].stage.k == |s.txns[x].op.ids| && TxnInv(s.db, s.txns[x])
    ensures Next(s, x).Some? && x in Next(s, x).value.txns
    ensures AppendFollows(s.db, s.txns[x], Next(s, x).value.db, Next(s, x).value.txns[x])
  {
    CountAppendedEnabled(s, x);
    assert Next(s, x) == CountAppended(s, x);
  }

  lemma AppendingProceeds(s: State, x: nat)
    requires Consistent(s.db) && Undisturbed(s, x) && Feasible(s, x) && s.txns[x].op.Append? && s.txns[x].stage.Appending?
    requires s.txns[x].stage.k <= s.txns[x].stage.m <= |s.txns[x].op.ids| && TxnInv(s.db, s.txns[x])
    ensures Next(s, x).Some? && x in Next(s, x).value.txns
    ensures AppendFollows(s.db, s.txns[x], Next(s, x).value.db, Next(s, x).value.txns[x])
  {
    if s.txns[x].stage.k < s.txns[x].stage.m {
      ItemProceeds(s, x);
    } else if s.txns[x].stage.m < |s.txns[x].op.ids| {
      MessageProceeds(s, x);
    } else {
      CountProceeds(s, x);
    }
  }

  lemma AppendFollowsCloser(s: State, x: nat)
    requires x in s.txns && s.txns[x].op.Append? && !ReadyToCommit(s.txns[x]) && Next(s, x).Some?
    requires x in Next(s, x).value.txns && AppendFollows(s.db, s.txns[x], Next(s, x).value.db, Next(s, x).value.txns[x])
    requires s.txns[x].stage.Appending? ==> s.txns[x].stage.k <= s.txns[x].stage.m <= |s.txns[x].op.ids|
    ensures Closer(s, Next(s, x).value, x)
  {
    NextWithoutCommit(s, x);
    AppendFollowingIsCloser(s, Next(s, x).value, x);
  }

  lemma AppendProceeds(s: State, x: nat)
    requires Consistent(s.db) && Undisturbed(s, x) && Feasible(s, x) && s.txns[x].op.Append? && !ReadyToCommit(s.txns[x])
    requires TxnInv(s.db, s.txns[x])
    ensures Next(s, x).Some? && Closer(s, Next(s, x).value, x)
  {
    AppendStagesAre(s.db, s.txns[x]);
    if s.txns[x].stage.Begun? {
      AppendBegunProceeds(s, x);
    } else {
      AppendingProceeds(s, x);
    }
    AppendFollowsCloser(s, x);
  }

  // ---------------------------------------------------------------- replace and delete

  ghost predicate IsRewrite(a: Txn) {
    a.op.Replace? || a.op.Delete?
  }

  /** The plan of a rewrite is its target. */
  lemma PlanIsTarget(t: Tables, a: Txn, target: seq<UUID>, dropped: seq<UUID>)
    requires PlanHolds(t, a, target, dropped)
    ensures Target(t, a) == target && IsRewrite(a)
  {
  }

  lemma DecideEnabled(s: State, x: nat)
    requires x in s.txns && TxnInv(s.db, s.txns[x]) && IsRewrite(s.txns[x]) && s.txns[x].stage.OrderRead?
    requires Admitted(s.db, s.txns[x])
    ensures Decide(s, x).Some? && Decide(s, x).value.txns[x].stage.Planned?
    ensures Decide(s, x).value.txns[x].stage.target == Target(s.db, s.txns[x])
  {
  }

  lemma RewriteItemEnabled(s: State, x: nat)
    requires Consistent(s.db) && x in s.txns && TxnInv(s.db, s.txns[x]) && Room(s.db, s.txns[x])
    requires IsRewrite(s.txns[x]) && s.txns[x].stage.Rewriting?
    requires s.txns[x].stage.written < |s.txns[x].stage.target|
    ensures RewriteItem(s, x).Some?
  {
    var a := s.txns[x];
    PlanTargets(s.db, a, a.stage.target, a.stage.dropped);
    RewriteNeverRefused(s.db, a.writes, a.conversation, a.stage.target, a.stage.written);
  }

  lemma SetCountEnabled(t: Tables, a: Txn, count: nat)
    requires a.writes.conversations == map[] && a.conversation in t.conversations
    requires Version(t, a.conversation) < MAX_INT64 && count <= MAX_INT64
    ensures SetCount(t, a.writes, a.conversation, count, a.now).Some?
  {
    PlusEmpty(t.conversations);
  }

  lemma CountRewrittenEnabled(s: State, x: nat, target: seq<UUID>, dropped: seq<UUID>)
    requires Undisturbed(s, x) && Feasible(s, x) && IsRewrite(s.txns[x])
    requires s.txns[x].writes.conversations == map[] && PlanHolds(s.db, s.txns[x], target, dropped)
    ensures CountRewritten(s, x, target, dropped).Some?
    ensures CountRewritten(s, x, target, dropped).value.txns[x].stage == ReadyToRewrite(target, dropped)
  {
    AlwaysGrantable(s, x, NoKeyUpdate);
    PlanIsTarget(s.db, s.txns[x], target, dropped);
    SetCountEnabled(s.db, s.txns[x], |target|);
  }

  /** The stage that follows when nothing stops a rewrite; one position is drawn for each item. */
  ghost predicate RewriteFollows(t: Tables, a: Txn, u: Tables, b: Txn) {
    match a.stage
    case Begun => b.stage.Locked? && u == t
    case Locked => b.stage.OrderRead? && u == t
    case OrderRead(_) => b.stage.Planned? && b.stage.target == Target(t, a) && u == t
    case Planned(target, _) => b.stage.Rewriting? && b.stage.target == target == Target(t, a) && b.stage.written == 0 && u == t
    case Rewriting(target, dropped, k) =>
      if k < |target| then b.stage == Rewriting(target, dropped, k + 1) && u == Draw(t)
      else (b.stage.MessagesDropped? || b.stage.ReadyToRewrite?) && k == |target| && u == t
    case MessagesDropped(_, _) => b.stage.ReadyToRewrite? && u == t
    case _ => false
  }

  lemma FollowingIsCloser(s: State, r: State, x: nat)
    requires OnlyMoves(s, r, x) && IsRewrite(s.txns[x]) && RewriteFollows(s.db, s.txns[x], r.db, r.txns[x])
    ensures Closer(s, r, x)
  {
    var a, b := s.txns[x], r.txns[x];
    if r.db == s.db {
      assert Target(r.db, b) == Target(s.db, a);
    }
  }

  lemma BegunProceeds(s: State, x: nat)
    requires Undisturbed(s, x) && Feasible(s, x) && IsRewrite(s.txns[x]) && s.txns[x].stage.Begun?
    ensures Next(s, x).Some? && x in Next(s, x).value.txns
    ensures RewriteFollows(s.db, s.txns[x], Next(s, x).value.db, Next(s, x).value.txns[x])
  {
    AlwaysGrantable(s, x, Update);
  }

  lemma LockedProceeds(s: State, x: nat)
    requires x in s.txns && IsRewrite(s.txns[x]) && s.txns[x].stage.Locked?
    ensures Next(s, x).Some? && x in Next(s, x).value.txns
    ensures RewriteFollows(s.db, s.txns[x], Next(s, x).value.db, Next(s, x).value.txns[x])
  {
  }

  lemma OrderReadProceeds(s: State, x: nat)
    requires Feasible(s, x) && TxnInv(s.db, s.txns[x]) && IsRewrite(s.txns[x]) && s.txns[x].stage.OrderRead?
    ensures Next(s, x).Some? && x in Next(s, x).value.txns
    ensures RewriteFollows(s.db, s.txns[x], Next(s, x).value.db, Next(s, x).value.txns[x])
  {
    DecideEnabled(s, x);
  }

  lemma PlannedProceeds(s: State, x: nat)
    requires x in s.txns && TxnInv(s.db, s.txns[x]) && IsRewrite(s.txns[x]) && s.txns[x].stage.Planned?
    ensures Next(s, x).Some? && x in Next(s, x).value.txns
    ensures RewriteFollows(s.db, s.txns[x], Next(s, x).value.db, Next(s, x).value.txns[x])
  {
    PlanIsTarget(s.db, s.txns[x], s.txns[x].stage.target, s.txns[x].stage.dropped);
  }

  lemma RewritingProceeds(s: State, x: nat)
    requires Consistent(s.db) && x in s.txns && TxnInv(s.db, s.txns[x]) && Room(s.db, s.txns[x])
    requires IsRewrite(s.txns[x]) && s.txns[x].stage.Rewriting? && s.txns[x].stage.written < |s.txns[x].stage.target|
    ensures Next(s, x).Some? && x in Next(s, x).value.txns
    ensures RewriteFollows(s.db, s.txns[x], Next(s, x).value.db, Next(s, x).value.txns[x])
  {
    RewriteItemEnabled(s, x);
    RewriteItemResult(s, x);
    assert Next(s, x) == RewriteItem(s, x);
  }

  lemma RewrittenProceeds(s: State, x: nat)
    requires Undisturbed(s, x) && TxnInv(s.db, s.txns[x]) && Feasible(s, x) && IsRewrite(s.txns[x])
    requires s.txns[x].stage.MessagesDropped?
             || (s.txns[x].stage.Rewriting? && s.txns[x].stage.written == |s.txns[x].stage.target|)
    ensures Next(s, x).Some? && x in Next(s, x).value.txns
    ensures RewriteFollows(s.db, s.txns[x], Next(s, x).value.db, Next(s, x).value.txns[x])
  {
    var a := s.txns[x];
    if a.stage.MessagesDropped? || a.op.Replace? {
      CountRewrittenEnabled(s, x, a.stage.target, a.stage.dropped);
    }
  }

  /** Before its last statements. */
  ghost predicate Early(a: Txn) {
    a.stage.Begun? || a.stage.Locked? || a.stage.OrderRead? || a.stage.Planned?
  }

  lemma EarlyProceeds(s: State, x: nat)
    requires Undisturbed(s, x) && TxnInv(s.db, s.txns[x]) && Feasible(s, x) && IsRewrite(s.txns[x]) && Early(s.txns[x])
    ensures Next(s, x).Some? && x in Next(s, x).value.txns
    ensures RewriteFollows(s.db, s.txns[x], Next(s, x).value.db, Next(s, x).value.txns[x])
  {
    match s.txns[x].stage
    case Begun => BegunProceeds(s, x);
    case Locked => LockedProceeds(s, x);
    case OrderRead(_) => OrderReadProceeds(s, x);
    case _ => PlannedProceeds(s, x);
  }

  lemma LateProceeds(s: State, x: nat)
    requires Consistent(s.db) && x in s.txns && TxnInv(s.db, s.txns[x]) && Undisturbed(s, x) && Feasible(s, x)
    requires IsRewrite(s.txns[x]) && (s.txns[x].stage.Rewriting? || s.txns[x].stage.MessagesDropped?)
    ensures Next(s, x).Some? && x in Next(s, x).value.txns
    ensures RewriteFollows(s.db, s.txns[x], Next(s, x).value.db, Next(s, x).value.txns[x])
  {
    if s.txns[x].stage.Rewriting? {
      WrittenAtMost(s.db, s.txns[x]);
      if s.txns[x].stage.written < |s.txns[x].stage.target| {
        RewritingProceeds(s, x);
      } else {
        RewrittenProceeds(s, x);
      }
    } else {
      RewrittenProceeds(s, x);
    }
  }

  lemma WrittenAtMost(t: Tables, a: Txn)
    requires TxnInv(t, a) && a.stage.Rewriting?
    ensures a.stage.written <= |a.stage.target|
  {
  }

  lemma FollowingProceeds(s: State, x: nat)
    requires x in s.txns && IsRewrite(s.txns[x]) && !ReadyToCommit(s.txns[x]) && Next(s, x).Some?
    requires x in Next(s, x).value.txns && RewriteFollows(s.db, s.txns[x], Next(s, x).value.db, Next(s, x).value.txns[x])
    ensures Closer(s, Next(s, x).value, x)
  {
    NextWithoutCommit(s, x);
    FollowingIsCloser(s, Next(s, x).value, x);
  }

  lemma RewriteProceeds(s: State, x: nat)
    requires Consistent(s.db) && Undisturbed(s, x) && TxnInv(s.db, s.txns[x]) && Feasible(s, x)
    requires IsRewrite(s.txns[x]) && !ReadyToCommit(s.txns[x])
    ensures Next(s, x).Some? && Closer(s, Next(s, x).value, x)
  {
    RewriteStagesAre(s.db, s.txns[x]);
    if Early(s.txns[x]) {
      EarlyProceeds(s, x);
    } else {
      LateProceeds(s, x);
    }
    FollowingProceeds(s, x);
  }

  lemma RewriteStagesAre(t: Tables, a: Txn)
    requires TxnInv(t, a) && IsRewrite(a) && !ReadyToCommit(a)
    ensures || a.stage.Begun? || a.stage.Locked? || a.stage.OrderRead? || a.stage.Planned?
            || a.stage.Rewriting? || a.stage.MessagesDropped?
  {
  }

  // ---------------------------------------------------------------- snapshot

  lemma FetchEnabled(s: State, x: nat)
    requires Feasible(s, x) && s.txns[x].op.Snapshot? && s.txns[x].stage.Begun?
    ensures FetchMessages(s, x).Some?
    ensures var r := FetchMessages(s, x).value.txns[x];
            r.stage.Fetched? && Found(s.db, s.txns[x].conversation, s.txns[x].op.copied, r.stage.found)
  {
    var a := s.txns[x];
    forall m | m in a.op.copied ensures m in StoredIDs(s.db, a.conversation) {
      assert m in Elements(a.op.copied);
    }
  }

  lemma CopyEnabled(s: State, x: nat)
    requires RowsReadable(s.db) && Feasible(s, x) && TxnInv(s.db, s.txns[x]) && s.txns[x].op.Snapshot?
    requires s.txns[x].stage.Copying? && s.txns[x].stage.done < |s.txns[x].op.copied|
    ensures CopyMessage(s, x).Some?
    ensures CopyMessage(s, x).value.txns[x].stage == Copying(s.txns[x].stage.found, s.txns[x].stage.done + 1)
  {
    var a := s.txns[x];
    var m := a.op.copied[a.stage.done];
    assert m in a.op.copied;
    assert StoredRow(s.db.messages[m]);
    CopyIsFaithful(m, s.db.messages[m]);
  }

  ghost predicate SnapshotFollows(t: Tables, a: Txn, u: Tables, b: Txn) {
    && a.op.Snapshot? && u == t
    && match a.stage
       case Begun => b.stage.Fetched?
       case Fetched(found) => b.stage == Copying(found, 0)
       case Copying(found, k) => b.stage == Copying(found, k + 1) && k < |a.op.copied|
       case _ => false
  }

  lemma SnapshotFollowingIsCloser(s: State, r: State, x: nat)
    requires OnlyMoves(s, r, x) && s.txns[x].op.Snapshot?
    requires s.txns[x].op.Snapshot? && SnapshotFollows(s.db, s.txns[x], r.db, r.txns[x])
    ensures Closer(s, r, x)
  {
  }

  lemma FetchedProceeds(s: State, x: nat)
    requires Undisturbed(s, x) && Feasible(s, x) && s.txns[x].op.Snapshot? && s.txns[x].stage.Fetched?
    ensures Next(s, x).Some? && x in Next(s, x).value.txns
    ensures SnapshotFollows(s.db, s.txns[x], Next(s, x).value.db, Next(s, x).value.txns[x])
  {
    AlwaysGrantable(s, x, KeyShare);
  }

  lemma SnapshotStagesAre(t: Tables, a: Txn)
    requires TxnInv(t, a) && a.op.Snapshot? && !ReadyToCommit(a)
    ensures a.stage.Begun? || a.stage.Fetched? || (a.stage.Copying? && a.stage.done < |a.op.copied|)
  {
  }

  lemma FetchProceeds(s: State, x: nat)
    requires Feasible(s, x) && s.txns[x].op.Snapshot? && s.txns[x].stage.Begun?
    ensures Next(s, x).Some? && x in Next(s, x).value.txns
    ensures SnapshotFollows(s.db, s.txns[x], Next(s, x).value.db, Next(s, x).value.txns[x])
  {
    FetchEnabled(s, x);
    assert Next(s, x) == FetchMessages(s, x);
  }

  lemma CopyProceeds(s: State, x: nat)
    requires RowsReadable(s.db) && Feasible(s, x) && TxnInv(s.db, s.txns[x]) && s.txns[x].op.Snapshot?
    requires s.txns[x].stage.Copying? && s.txns[x].stage.done < |s.txns[x].op.copied|
    ensures Next(s, x).Some? && x in Next(s, x).value.txns
    ensures SnapshotFollows(s.db, s.txns[x], Next(s, x).value.db, Next(s, x).value.txns[x])
  {
    CopyEnabled(s, x);
    assert Next(s, x) == CopyMessage(s, x);
  }

  lemma SnapshotStep(s: State, x: nat)
    requires RowsReadable(s.db) && Undisturbed(s, x) && TxnInv(s.db, s.txns[x]) && Feasible(s, x) && s.txns[x].op.Snapshot?
    requires s.txns[x].stage.Begun? || s.txns[x].stage.Fetched? || (s.txns[x].stage.Copying? && s.txns[x].stage.done < |s.txns[x].op.copied|)
    ensures Next(s, x).Some? && x in Next(s, x).value.txns
    ensures SnapshotFollows(s.db, s.txns[x], Next(s, x).value.db, Next(s, x).value.txns[x])
  {
    match s.txns[x].stage
    case Begun => FetchProceeds(s, x);
    case Fetched(_) => FetchedProceeds(s, x);
    case _ => CopyProceeds(s, x);
  }

  lemma SnapshotProceeds(s: State, x: nat)
    requires RowsReadable(s.db) && Undisturbed(s, x) && TxnInv(s.db, s.txns[x]) && Feasible(s, x) && s.txns[x].op.Snapshot?
    requires !ReadyToCommit(s.txns[x])
    ensures Next(s, x).Some? && Closer(s, Next(s, x).value, x)
  {
    SnapshotStagesAre(s.db, s.txns[x]);
    SnapshotStep(s, x);
    NextWithoutCommit(s, x);
    SnapshotFollowingIsCloser(s, Next(s, x).value, x);
  }

  // ---------------------------------------------------------------- all the way

  /** What the tables admit stays the same while only positions are drawn. */
  lemma AdmittedStays(t: Tables, u: Tables, a: Txn, b: Txn)
    requires Consistent(t) && Quiet(t, u) && b.op == a.op && b.conversation == a.conversation
    ensures Order(u, a.conversation) == Order(t, a.conversation) && StoredIDs(u, a.conversation) == StoredIDs(t, a.conversation)
    ensures Target(u, b) == Target(t, a) && (Admitted(u, b) <==> Admitted(t, a))
    ensures Version(u, a.conversation) == Version(t, a.conversation)
  {
    DrawingKeepsOrder(t, u.nextPosition, a.conversation);
  }

  lemma RoomStays(s: State, r: State, x: nat)
    requires Consistent(s.db) && x in s.txns && Room(s.db, s.txns[x]) && Closer(s, r, x)
    ensures Room(r.db, r.txns[x])
  {
    AdmittedStays(s.db, r.db, s.txns[x], r.txns[x]);
  }

  lemma FoundStays(t: Tables, u: Tables, c: UUID, copied: seq<UUID>, found: map<UUID, MessageRow>)
    requires Quiet(t, u) && Found(t, c, copied, found)
    ensures Found(u, c, copied, found)
  {
    assert StoredIDs(u, c) == StoredIDs(t, c);
  }

  /** A snapshot knows its rows from the fetch on. */
  lemma SnapshotKeepsFound(s: State, x: nat)
    requires Feasible(s, x) && s.txns[x].op.Snapshot? && !ReadyToCommit(s.txns[x]) && Next(s, x).Some?
    requires x in Next(s, x).value.txns
    ensures var a := Next(s, x).value.txns[x];
            && (a.stage.Fetched? ==> Found(s.db, s.txns[x].conversation, s.txns[x].op.copied, a.stage.found))
            && (a.stage.Copying? ==> Found(s.db, s.txns[x].conversation, s.txns[x].op.copied, a.stage.found))
  {
    if s.txns[x].stage.Begun? {
      FetchEnabled(s, x);
    }
  }

  lemma SnapshotNeedsStay(s: State, x: nat)
    requires Feasible(s, x) && s.txns[x].op.Snapshot? && !ReadyToCommit(s.txns[x]) && Next(s, x).Some?
    requires OnlyMoves(s, Next(s, x).value, x)
    ensures SnapshotNeeds(Next(s, x).value, x)
  {
    var r := Next(s, x).value;
    SnapshotKeepsFound(s, x);
    assert StoredIDs(r.db, s.txns[x].conversation) == StoredIDs(s.db, s.txns[x].conversation);
    if r.txns[x].stage.Fetched? {
      FoundStays(s.db, r.db, s.txns[x].conversation, s.txns[x].op.copied, r.txns[x].stage.found);
    } else if r.txns[x].stage.Copying? {
      FoundStays(s.db, r.db, s.txns[x].conversation, s.txns[x].op.copied, r.txns[x].stage.found);
    }
  }

  lemma FeasibleStays(s: State, x: nat)
    requires Consistent(s.db) && Feasible(s, x) && !ReadyToCommit(s.txns[x]) && Next(s, x).Some?
    requires Closer(s, Next(s, x).value, x)
    ensures Feasible(Next(s, x).value, x)
  {
    var r := Next(s, x).value;
    RoomStays(s, r, x);
    match s.txns[x].op
    case Append(_, _) =>
    case Snapshot(_, _) => SnapshotNeedsStay(s, x);
    case _ => AdmittedStays(s.db, r.db, s.txns[x], r.txns[x]);
  }

  lemma UndisturbedStays(s: State, r: State, x: nat)
    requires Undisturbed(s, x) && OnlyMoves(s, r, x)
    ensures Undisturbed(r, x)
  {
  }

  lemma OneStepCloser(s: State, x: nat)
    requires Inv(s) && RowsReadable(s.db) && Undisturbed(s, x) && Feasible(s, x) && !ReadyToCommit(s.txns[x])
    ensures Next(s, x).Some? && Closer(s, Next(s, x).value, x)
  {
    assert TxnInv(s.db, s.txns[x]);
    match s.txns[x].op
    case Append(_, _) => AppendProceeds(s, x);
    case Snapshot(_, _) => SnapshotProceeds(s, x);
    case _ => RewriteProceeds(s, x);
  }

  /** The next statement is enabled and brings the commit closer. */
  lemma Proceeds(s: State, x: nat)
    requires Inv(s) && AllReadable(s) && Undisturbed(s, x) && Feasible(s, x) && !ReadyToCommit(s.txns[x])
    ensures Next(s, x).Some?
    ensures var r := Next(s, x).value;
            Closer(s, r, x) && Inv(r) && AllReadable(r) && Undisturbed(r, x) && Feasible(r, x)
  {
    OneStepCloser(s, x);
    FeasibleStays(s, x);
    UndisturbedStays(s, Next(s, x).value, x);
    NextKeeps(s, x);
    StepReadable(s, Advance(x));
  }

  // ---------------------------------------------------------------- runs

  lemma {:induction false} RunFirst(s: State, e: Event, events: seq<Event>)
    requires Step(s, e).Some?
    ensures Run(s, [e] + events) == Run(Step(s, e).value, events)
  {
    var all := [e] + events;
    if events == [] {
      assert all[..0] == [] && all[0] == e;
      assert Run(s, []) == Some(s);
    } else {
      var last := |events| - 1;
      assert all[..|all| - 1] == [e] + events[..last];
      RunFirst(s, e, events[..last]);
    }
  }

  /** Only transaction `x` has moved, nothing has committed. */
  ghost predicate MovedOn(s: State, r: State, x: nat) {
    && x in s.txns && x in r.txns && Quiet(s.db, r.db) && r.txns == s.txns[x := r.txns[x]]
    && r.txns[x].op == s.txns[x].op && r.txns[x].conversation == s.txns[x].conversation
  }

  lemma MovedOnMore(s: State, m: State, r: State, x: nat)
    requires OnlyMoves(s, m, x) && MovedOn(m, r, x)
    ensures MovedOn(s, r, x)
  {
    assert s.txns[x := r.txns[x]] == m.txns[x := r.txns[x]];
  }

  /** Left to itself it reaches its commit. */
  lemma {:induction false} ReachesCommit(s: State, x: nat) returns (events: seq<Event>)
    requires Inv(s) && AllReadable(s) && Undisturbed(s, x) && Feasible(s, x)
    ensures Run(s, events).Some?
    ensures var r := Run(s, events).value; MovedOn(s, r, x) && ReadyToCommit(r.txns[x]) && Inv(r)
    decreases StepsLeft(s.db, s.txns[x])
  {
    if ReadyToCommit(s.txns[x]) {
      events := [];
    } else {
      Proceeds(s, x);
      var m := Next(s, x).value;
      var rest := ReachesCommit(m, x);
      events := [Advance(x)] + rest;
      RunFirst(s, Advance(x), rest);
      MovedOnMore(s, m, Run(m, rest).value, x);
    }
  }

  /** What the operation of a transaction is to do to the tables it finds. */
  ghost predicate Effect(t: Tables, u: Tables, a: Txn) {
    var c := a.conversation;
    match a.op
    case Append(ids, rows) =>
      && Rows.Only(Order(u, c), Elements(ids)) == ids && Rows.Except(Order(u, c), Elements(ids)) == Order(t, c)
      && BatchStored(t, u, ids, rows)
    case Replace(spec) =>
      && ReplaceOutcome(Order(t, c), StoredIDs(t, c), spec).Ok?
      && Order(u, c) == ReplaceOutcome(Order(t, c), StoredIDs(t, c), spec).value.order && u.messages == t.messages
    case Delete(spec) =>
      && DeleteOutcome(Order(t, c), spec).Ok?
      && Order(u, c) == DeleteOutcome(Order(t, c), spec).value.remaining
      && u.messages == t.messages - Elements(DeleteOutcome(Order(t, c), spec).value.deleted)
    case Snapshot(id, _) =>
      id !in t.snapshots && id in u.snapshots && u.snapshots == t.snapshots[id := u.snapshots[id]] && Order(u, c) == Order(t, c)
  }

  /** A conversation's order and stored messages, to which an effect refers, do not depend on drawn positions. */
  ghost predicate SameView(t0: Tables, t: Tables, c: UUID) {
    && Order(t, c) == Order(t0, c) && StoredIDs(t, c) == StoredIDs(t0, c)
    && t.messages == t0.messages && t.snapshots == t0.snapshots
  }

  lemma QuietView(t0: Tables, t: Tables, c: UUID)
    requires Consistent(t0) && Quiet(t0, t)
    ensures SameView(t0, t, c)
  {
    DrawingKeepsOrder(t0, t.nextPosition, c);
  }

  lemma AppendEffect(t0: Tables, t: Tables, u: Tables, a0: Txn, a: Txn)
    requires SameView(t0, t, a.conversation) && a.op == a0.op && a.conversation == a0.conversation && Appended(t, u, a)
    ensures Effect(t0, u, a0)
  {
    assert BatchStored(t, u, a.op.ids, a.op.rows);
  }

  lemma RewriteEffect(t0: Tables, t: Tables, u: Tables, a0: Txn, a: Txn)
    requires SameView(t0, t, a.conversation) && a.op == a0.op && a.conversation == a0.conversation && IsRewrite(a)
    requires Rewritten(t, u, a)
    ensures Effect(t0, u, a0)
  {
    PlusEmpty(t.messages);
    assert Elements<UUID>([]) == {};
  }

  lemma SnapshotEffect(t0: Tables, t: Tables, u: Tables, a0: Txn, a: Txn)
    requires SameView(t0, t, a.conversation) && a.op == a0.op && a.conversation == a0.conversation && SnapshotTaken(t, u, a)
    ensures Effect(t0, u, a0)
  {
  }

  lemma CommitHasEffect(t0: Tables, t: Tables, u: Tables, a0: Txn, a: Txn)
    requires Consistent(t0) && Quiet(t0, t) && a.op == a0.op && a.conversation == a0.conversation && CommitEffect(t, u, a)
    ensures Effect(t0, u, a0)
  {
    QuietView(t0, t, a.conversation);
    match a.op
    case Append(_, _) => AppendEffect(t0, t, u, a0, a);
    case Snapshot(_, _) => SnapshotEffect(t0, t, u, a0, a);
    case _ => RewriteEffect(t0, t, u, a0, a);
  }

  lemma CommitDoes(r: State, x: nat)
    requires Inv(r) && x in r.txns && ReadyToCommit(r.txns[x])
    ensures Step(r, Advance(x)) == Some(Commit(r, x)) && Inv(Commit(r, x)) && x !in Commit(r, x).txns
    ensures CommitEffect(r.db, Commit(r, x).db, r.txns[x])
  {
    CommitKeeps(r, x);
  }

  lemma RunLast(s: State, events: seq<Event>, e: Event)
    requires Run(s, events).Some?
    ensures Run(s, events + [e]) == Step(Run(s, events).value, e)
  {
    assert (events + [e])[..|events|] == events;
  }

  /**
   * An operation on a conversation no other transaction works on, that the tables admit and that does
   * not use up positions, has a run in which it commits, and then its effect on the tables it found.
   */
  lemma Commits(s: State, x: nat) returns (events: seq<Event>)
    requires Inv(s) && AllReadable(s) && Undisturbed(s, x) && Feasible(s, x)
    ensures Run(s, events).Some?
    ensures var r := Run(s, events).value; x !in r.txns && Inv(r) && Effect(s.db, r.db, s.txns[x])
  {
    var before := ReachesCommit(s, x);
    var r := Run(s, before).value;
    events := before + [Advance(x)];
    RunLast(s, before, Advance(x));
    CommitDoes(r, x);
    CommitHasEffect(s.db, r.db, Commit(r, x).db, s.txns[x], r.txns[x]);
  }

  function Fresh(c: UUID, now: Time, op: Operation): Txn {
    Txn(c, now, op, Begun, {}, NO_WRITES, map[])
  }

  /** What the tables admit is never refused at the door: a split needs a bound. */
  lemma FeasibleIsAcceptable(s: State, x: nat, c: UUID, now: Time, op: Operation)
    requires Feasible(Put(s, x, Fresh(c, now, op)), x)
    ensures Acceptable(c, op)
  {
    match op
    case Append(_, rows) =>
      forall i | 0 <= i < |rows| ensures rows[i].conversation == c && Encoded(rows[i]) { }
    case _ =>
  }

  /** From its beginning: every operation that the tables admit is accepted and can run to its effect. */
  lemma CommitsFromBeginning(s: State, x: nat, c: UUID, now: Time, op: Operation) returns (events: seq<Event>)
    requires Inv(s) && AllReadable(s) && x !in s.txns
    requires forall y :: y in s.txns ==> s.txns[y].conversation != c
    requires Feasible(Put(s, x, Fresh(c, now, op)), x)
    ensures events != [] && events[0] == Begin(x, c, now, op) && Run(s, events).Some?
    ensures var r := Run(s, events).value; x !in r.txns && Inv(r) && Effect(s.db, r.db, Fresh(c, now, op))
  {
    FeasibleIsAcceptable(s, x, c, now, op);
    var s1 := Step(s, Begin(x, c, now, op)).value;
    StepKeeps(s, Begin(x, c, now, op));
    StepReadable(s, Begin(x, c, now, op));
    var rest := Commits(s1, x);
    events := [Begin(x, c, now, op)] + rest;
    RunFirst(s, Begin(x, c, now, op), rest);
  }
}
