/** Every step that does not commit keeps the invariant of the machine. */
module MachineSteps {
  import opened Base
  import opened Effects
  import opened Machine
  import opened MachineInvariant
  import opened Tables

  // ---------------------------------------------------------------- facts about one transaction

  lemma OwnBelowNext(t: Tables, b: Txn)
    requires TxnInv(t, b)
    ensures forall p :: p in b.writes.items ==> p < t.nextPosition
  {
  }

  lemma PastBegunHasRow(t: Tables, b: Txn)
    requires TxnInv(t, b) && !b.stage.Begun?
    ensures b.conversation in t.conversations || b.conversation in b.writes.conversations
  {
  }

  // ---------------------------------------------------------------- facts about pairs

  /** Moving on without a new conversation row, with at most one new lock, position and message. */
  lemma PairsKeep(s: State, x: nat, a: Txn, mode: Mode, y: nat)
    requires Inv(s) && x in s.txns && y in s.txns && x != y
    requires a.conversation == s.txns[x].conversation && a.held <= s.txns[x].held + {mode}
    requires mode in a.held ==> Grantable(s, x, a.conversation, mode)
    requires !s.txns[x].stage.Begun? || a.conversation in s.db.conversations
    requires a.conversation in a.writes.conversations ==>
               a.conversation in s.txns[x].writes.conversations || a.conversation in s.db.conversations
    requires a.writes.items.Keys <= s.txns[x].writes.items.Keys + {s.db.nextPosition}
    requires a.writes.messages.Keys !! s.txns[y].writes.messages.Keys
    requires a.writes.snapshots.Keys !! s.txns[y].writes.snapshots.Keys
    ensures PairInv(s.db, a, s.txns[y]) && PairInv(s.db, s.txns[y], a)
  {
    var b := s.txns[y];
    assert PairInv(s.db, s.txns[x], b) && PairInv(s.db, b, s.txns[x]);
    PairsAfterLock(s, x, a, mode, b, y);
    OwnBelowNext(s.db, b);
  }

  /** What a move may change besides the stage: one new lock, one new item, the conversation's row. */
  ghost predicate Admissible(s: State, x: nat, a: Txn, mode: Mode)
    requires x in s.txns
  {
    var b := s.txns[x];
    && a.conversation == b.conversation && a.held <= b.held + {mode}
    && (mode in a.held ==> Grantable(s, x, a.conversation, mode))
    && (!b.stage.Begun? || a.conversation in s.db.conversations)
    && (a.conversation in a.writes.conversations ==>
          a.conversation in b.writes.conversations || a.conversation in s.db.conversations)
    && a.writes.items.Keys <= b.writes.items.Keys + {s.db.nextPosition}
    && a.writes.messages == b.writes.messages && a.writes.snapshots.Keys <= b.writes.snapshots.Keys
  }

  /** An admissible move keeps the invariant once its own part holds. */
  lemma Moves(s: State, x: nat, n: nat, a: Txn, mode: Mode)
    requires Inv(s) && x in s.txns && s.db.nextPosition <= n && TxnInv(s.db.(nextPosition := n), a)
    requires Admissible(s, x, a, mode)
    ensures Inv(Put(s.(db := s.db.(nextPosition := n)), x, a))
  {
    forall y | y in s.txns && y != x ensures PairInv(s.db, a, s.txns[y]) && PairInv(s.db, s.txns[y], a) {
      assert PairInv(s.db, s.txns[x], s.txns[y]);
      PairsKeep(s, x, a, mode, y);
    }
    LocalStep(s, x, n, a);
  }

  lemma MovesDrawing(s: State, x: nat, a: Txn, mode: Mode)
    requires Inv(s) && x in s.txns && TxnInv(Draw(s.db), a) && Admissible(s, x, a, mode)
    ensures Inv(Put(s.(db := Draw(s.db)), x, a))
  {
    Moves(s, x, s.db.nextPosition + 1, a, mode);
  }

  // ---------------------------------------------------------------- beginning and aborting

  lemma BeginKeeps(s: State, x: nat, c: UUID, now: Time, op: Operation)
    requires Inv(s) && Step(s, Begin(x, c, now, op)).Some?
    ensures Inv(Step(s, Begin(x, c, now, op)).value)
  {
    var a := Txn(c, now, op, Begun, {}, NO_WRITES, map[]);
    NoOwnItems(s.db, NO_WRITES, c);
    if op.Append? {
      assert op.ids[..0] == [];
      assert AppendHolds(s.db, a, 0, 0);
    }
    forall y | y in s.txns && y != x ensures PairInv(s.db, a, s.txns[y]) && PairInv(s.db, s.txns[y], a) {
    }
    LocalStep(s, x, s.db.nextPosition, a);
  }

  lemma AbortKeeps(s: State, x: nat)
    requires Inv(s) && x in s.txns
    ensures Inv(Step(s, Abort(x)).value)
  {
  }

  // ---------------------------------------------------------------- append

  lemma EnsureKeeps(s: State, x: nat)
    requires Inv(s) && x in s.txns && s.txns[x].op.Append? && s.txns[x].stage.Begun? && EnsureConversation(s, x).Some?
    ensures Inv(EnsureConversation(s, x).value)
  {
    var a := s.txns[x];
    var c := a.conversation;
    var a' := a.(stage := Appending(0, 0), writes := InsertConversation(s.db, a.writes, c, a.now));
    NoOwnItems(s.db, a'.writes, c);
    assert a.op.ids[..0] == [];
    PlusEmpty(s.db.conversations);
    assert TxnInv(s.db, a');
    forall y | y in s.txns && y != x ensures PairInv(s.db, a', s.txns[y]) && PairInv(s.db, s.txns[y], a') {
      assert PairInv(s.db, a, s.txns[y]) && PairInv(s.db, s.txns[y], a);
      if !s.txns[y].stage.Begun? {
        PastBegunHasRow(s.db, s.txns[y]);
      }
    }
    LocalStep(s, x, s.db.nextPosition, a');
  }

  function WithAppendMessage(a: Txn): Txn
    requires a.op.Append? && a.stage.Appending? && a.stage.m < |a.op.ids| && a.stage.m < |a.op.rows|
  {
    var m := a.stage.m;
    a.(stage := Appending(m + 1, a.stage.k), held := a.held + {KeyShare},
       writes := a.writes.(messages := a.writes.messages[a.op.ids[m] := a.op.rows[m]]))
  }

  lemma AppendMessageMove(t: Tables, a: Txn)
    requires TxnInv(t, a) && a.op.Append? && a.stage.Appending? && a.stage.k == a.stage.m < |a.op.ids|
    requires a.op.ids[a.stage.m] !in Apply(t, a.writes).messages
    ensures TxnInv(t, WithAppendMessage(a))
  {
    MessageInserted(t, a.writes, a.conversation, a.op.ids, a.op.rows, a.stage.m, a.stage.k);
  }

  lemma AppendMessageResult(s: State, x: nat)
    requires x in s.txns && s.txns[x].op.Append? && s.txns[x].stage.Appending? && AppendMessage(s, x).Some?
    ensures var a := s.txns[x];
            && a.stage.m < |a.op.ids| && a.stage.m < |a.op.rows|
            && LastDecoded(a.op.rows, a.stage.m)
            && a.op.ids[a.stage.m] !in Apply(s.db, a.writes).messages && Grantable(s, x, a.conversation, KeyShare)
            && (forall y :: y in s.txns && y != x ==> a.op.ids[a.stage.m] !in s.txns[y].writes.messages)
            && AppendMessage(s, x).value == Put(s, x, WithAppendMessage(a))
  {
  }

  /** What lets the next message in. */
  lemma AppendMessageGoes(s: State, x: nat)
    requires x in s.txns && s.txns[x].op.Append? && s.txns[x].stage.Appending?
    requires s.txns[x].stage.m < |s.txns[x].op.ids| && s.txns[x].stage.m < |s.txns[x].op.rows|
    requires LastDecoded(s.txns[x].op.rows, s.txns[x].stage.m) && Grantable(s, x, s.txns[x].conversation, KeyShare)
    requires forall y :: y in s.txns && y != x ==> s.txns[x].op.ids[s.txns[x].stage.m] !in s.txns[y].writes.messages
    requires InsertMessage(s.db, s.txns[x].writes, s.txns[x].op.ids[s.txns[x].stage.m], s.txns[x].op.rows[s.txns[x].stage.m]).Some?
    ensures AppendMessage(s, x) == Some(Put(s, x, WithAppendMessage(s.txns[x])))
  {
  }

  lemma AppendMessageKeeps(s: State, x: nat)
    requires Inv(s) && x in s.txns && s.txns[x].op.Append? && s.txns[x].stage.Appending?
    requires s.txns[x].stage.k == s.txns[x].stage.m && AppendMessage(s, x).Some?
    ensures Inv(AppendMessage(s, x).value)
  {
    AppendMessageResult(s, x);
    var a := s.txns[x];
    var a' := WithAppendMessage(a);
    AppendMessageMove(s.db, a);
    forall y | y in s.txns && y != x ensures PairInv(s.db, a', s.txns[y]) && PairInv(s.db, s.txns[y], a') {
      assert PairInv(s.db, a, s.txns[y]);
      PairsKeep(s, x, a', KeyShare, y);
    }
    LocalStep(s, x, s.db.nextPosition, a');
  }

  /** The transaction after inserting its next item at position `n`. */
  function WithAppendItem(t: Tables, a: Txn): Txn
    requires a.op.Append? && a.stage.Appending? && a.stage.k < |a.op.ids|
  {
    var k := a.stage.k;
    a.(stage := Appending(a.stage.m, k + 1),
       writes := a.writes.(items := a.writes.items[t.nextPosition := Item(a.conversation, a.op.ids[k])]),
       before := if k == 0 then ItemsOf(t.items, a.conversation) else a.before)
  }

  lemma AppendItemAdded(t: Tables, a: Txn)
    requires Consistent(t) && a.op.Append? && a.stage.Appending? && a.stage.k < a.stage.m && 0 < t.nextPosition <= MAX_INT64
    requires AppendWrites(t, a.writes, a.conversation, a.op.ids, a.op.rows, a.stage.m, a.stage.k)
    ensures AppendWrites(Draw(t), WithAppendItem(t, a).writes, a.conversation, a.op.ids, a.op.rows, a.stage.m, a.stage.k + 1)
  {
    ItemInserted(t, a.writes, a.conversation, a.op.ids, a.op.rows, a.stage.m, a.stage.k);
  }

  lemma AppendItemBefore(t: Tables, a: Txn)
    requires Consistent(t) && a.op.Append? && a.stage.Appending? && a.stage.k < |a.op.ids|
    requires AppendHolds(t, a, a.stage.m, a.stage.k)
    ensures var b := WithAppendItem(t, a);
            && (forall p :: p in b.before ==> p in t.items && t.items[p] == Item(b.conversation, b.before[p]))
            && (forall p, q :: p in b.before && q in b.writes.items ==> p < q)
  {
    forall p | p in WithAppendItem(t, a).before ensures p < t.nextPosition {
      assert p in t.items ==> ItemFits(t, p);
    }
  }

  lemma AppendItemHolds(t: Tables, a: Txn)
    requires Consistent(t) && a.op.Append? && a.stage.Appending? && a.stage.k < a.stage.m && 0 < t.nextPosition <= MAX_INT64
    requires AppendHolds(t, a, a.stage.m, a.stage.k)
    ensures AppendHolds(Draw(t), WithAppendItem(t, a), a.stage.m, a.stage.k + 1)
  {
    AppendItemAdded(t, a);
    AppendItemBefore(t, a);
  }

  lemma UncountedDraw(t: Tables, a: Txn)
    requires Uncounted(t, a) && a.op.Append? && a.stage.Appending? && a.stage.k < |a.op.ids|
    ensures Uncounted(Draw(t), WithAppendItem(t, a))
  {
  }

  lemma AppendItemMove(t: Tables, a: Txn)
    requires Consistent(t) && a.op.Append? && a.stage.Appending? && a.stage.k < a.stage.m <= a.stage.k + 1
    requires AppendHolds(t, a, a.stage.m, a.stage.k) && Uncounted(t, a) && a.held == {KeyShare}
    requires 0 < t.nextPosition <= MAX_INT64
    ensures TxnInv(Draw(t), WithAppendItem(t, a))
  {
    AppendItemHolds(t, a);
    UncountedDraw(t, a);
  }

  lemma AppendItemResult(s: State, x: nat)
    requires x in s.txns && s.txns[x].op.Append? && s.txns[x].stage.Appending? && AppendItem(s, x).Some?
    ensures s.txns[x].stage.k < |s.txns[x].op.ids| && s.db.nextPosition <= MAX_INT64
    ensures AppendItem(s, x).value == Put(s.(db := Draw(s.db)), x, WithAppendItem(s.db, s.txns[x]))
  {
  }

  lemma AppendItemAdmissible(s: State, x: nat)
    requires x in s.txns && s.txns[x].op.Append? && s.txns[x].stage.Appending? && s.txns[x].stage.k < |s.txns[x].op.ids|
    requires Share !in s.txns[x].held
    ensures Admissible(s, x, WithAppendItem(s.db, s.txns[x]), Share)
  {
  }

  lemma AppendItemPut(s: State, x: nat)
    requires Inv(s) && x in s.txns && s.txns[x].op.Append? && s.txns[x].stage.Appending?
    requires s.txns[x].stage.k < s.txns[x].stage.m && s.db.nextPosition <= MAX_INT64 && s.txns[x].stage.k < |s.txns[x].op.ids|
    ensures Inv(Put(s.(db := Draw(s.db)), x, WithAppendItem(s.db, s.txns[x])))
  {
    AppendItemMove(s.db, s.txns[x]);
    AppendItemAdmissible(s, x);
    MovesDrawing(s, x, WithAppendItem(s.db, s.txns[x]), Share);
  }

  lemma AppendItemKeeps(s: State, x: nat)
    requires Inv(s) && x in s.txns && s.txns[x].op.Append? && s.txns[x].stage.Appending?
    requires s.txns[x].stage.k < s.txns[x].stage.m && AppendItem(s, x).Some?
    ensures Inv(AppendItem(s, x).value)
  {
    AppendItemResult(s, x);
    AppendItemPut(s, x);
  }

  lemma AppendCounted(t: Tables, a: Txn, w: Writes)
    requires a.op.Append? && Consistent(t) && AppendHolds(t, a, |a.op.ids|, |a.op.ids|) && Uncounted(t, a)
    requires AddCount(t, a.writes, a.conversation, |a.op.ids|, a.now) == Some(w)
    ensures w == a.writes.(conversations := w.conversations)
    ensures Counted(t, w, a.conversation, |Order(t, a.conversation)| + |a.op.ids|)
  {
    RelativeCount(t, a.writes, a.conversation, |a.op.ids|, a.now, w);
  }

  lemma AppendHoldsCounted(t: Tables, a: Txn, w: Writes, b: Txn)
    requires a.op.Append? && AppendHolds(t, a, |a.op.ids|, |a.op.ids|) && w == a.writes.(conversations := w.conversations)
    requires b == a.(stage := b.stage, writes := w, held := b.held)
    ensures AppendHolds(t, b, |a.op.ids|, |a.op.ids|)
  {
  }

  lemma CountAppendedMove(t: Tables, a: Txn, w: Writes)
    requires Consistent(t) && TxnInv(t, a) && a.op.Append? && a.stage.Appending? && a.stage.m == a.stage.k == |a.op.ids|
    requires AddCount(t, a.writes, a.conversation, |a.op.ids|, a.now) == Some(w)
    ensures TxnInv(t, a.(stage := ReadyToAppend, writes := w, held := a.held + {NoKeyUpdate}))
  {
    AppendCounted(t, a, w);
    AppendHoldsCounted(t, a, w, a.(stage := ReadyToAppend, writes := w, held := a.held + {NoKeyUpdate}));
  }

  lemma CountAppendedKeeps(s: State, x: nat)
    requires Inv(s) && x in s.txns && s.txns[x].op.Append? && s.txns[x].stage.Appending?
    requires s.txns[x].stage.m == s.txns[x].stage.k == |s.txns[x].op.ids| && CountAppended(s, x).Some?
    ensures Inv(CountAppended(s, x).value)
  {
    var a' := CountAppended(s, x).value.txns[x];
    CountAppendedMove(s.db, s.txns[x], a'.writes);
    AppendCounted(s.db, s.txns[x], a'.writes);
    PastBegunHasRow(s.db, s.txns[x]);
    Moves(s, x, s.db.nextPosition, a', NoKeyUpdate);
  }

  // ---------------------------------------------------------------- replace and delete

  lemma LockKeeps(s: State, x: nat)
    requires Inv(s) && x in s.txns && (s.txns[x].op.Replace? || s.txns[x].op.Delete?)
    requires s.txns[x].stage.Begun? && LockForUpdate(s, x).Some?
    ensures Inv(LockForUpdate(s, x).value)
  {
    var a := s.txns[x];
    Moves(s, x, s.db.nextPosition, a.(stage := Locked, held := a.held + {Update}), Update);
  }

  /** A step that changes only what the transaction knows. */
  lemma StageOnly(s: State, x: nat, a: Txn)
    requires Inv(s) && x in s.txns && !s.txns[x].stage.Begun? && a == s.txns[x].(stage := a.stage) && TxnInv(s.db, a)
    ensures Inv(Put(s, x, a))
  {
    Moves(s, x, s.db.nextPosition, a, Share);
  }

  lemma ReadOrderKeeps(s: State, x: nat)
    requires Inv(s) && x in s.txns && s.txns[x].stage.Locked?
    ensures Inv(ReadOrder(s, x).value)
  {
    StageOnly(s, x, s.txns[x].(stage := OrderRead(Order(s.db, s.txns[x].conversation))));
  }

  lemma DecideKeeps(s: State, x: nat)
    requires Inv(s) && x in s.txns && s.txns[x].stage.OrderRead? && Decide(s, x).Some?
    ensures Inv(Decide(s, x).value)
  {
    StageOnly(s, x, Decide(s, x).value.txns[x]);
  }

  lemma ClearMove(t: Tables, a: Txn)
    requires TxnInv(t, a) && a.stage.Planned?
    ensures TxnInv(t, a.(stage := Rewriting(a.stage.target, a.stage.dropped, 0), writes := ClearItems(t, a.writes, a.conversation)))
  {
    ClearedWrites(t, a.conversation, a.stage.target);
  }

  lemma ClearKeeps(s: State, x: nat)
    requires Inv(s) && x in s.txns && s.txns[x].stage.Planned?
    ensures Inv(Clear(s, x).value)
  {
    ClearMove(s.db, s.txns[x]);
    ClearedWrites(s.db, s.txns[x].conversation, s.txns[x].stage.target);
    Moves(s, x, s.db.nextPosition, Clear(s, x).value.txns[x], Share);
  }

  function WithRewriteItem(t: Tables, a: Txn): Txn
    requires a.stage.Rewriting? && a.stage.written < |a.stage.target|
  {
    var k := a.stage.written;
    a.(stage := Rewriting(a.stage.target, a.stage.dropped, k + 1),
       writes := a.writes.(items := a.writes.items[t.nextPosition := Item(a.conversation, a.stage.target[k])]))
  }

  lemma RewriteItemMove(t: Tables, a: Txn)
    requires Consistent(t) && TxnInv(t, a) && a.stage.Rewriting? && a.stage.written < |a.stage.target|
    requires 0 < t.nextPosition <= MAX_INT64
    ensures TxnInv(Draw(t), WithRewriteItem(t, a))
  {
    var target, k := a.stage.target, a.stage.written;
    RewriteInserted(t, a.writes, a.conversation, target, k, {});
    DrawingKeepsOrder(t, t.nextPosition + 1, a.conversation);
    assert RewriteHolds(Draw(t), WithRewriteItem(t, a), target, a.stage.dropped, k + 1, {});
  }

  lemma RewriteItemResult(s: State, x: nat)
    requires x in s.txns && s.txns[x].stage.Rewriting? && s.txns[x].stage.written < |s.txns[x].stage.target|
    requires RewriteItem(s, x).Some?
    ensures s.db.nextPosition <= MAX_INT64
    ensures RewriteItem(s, x).value == Put(s.(db := Draw(s.db)), x, WithRewriteItem(s.db, s.txns[x]))
  {
  }

  lemma RewriteItemAdmissible(s: State, x: nat)
    requires x in s.txns && s.txns[x].stage.Rewriting? && s.txns[x].stage.written < |s.txns[x].stage.target|
    requires Share !in s.txns[x].held
    ensures Admissible(s, x, WithRewriteItem(s.db, s.txns[x]), Share)
  {
  }

  lemma RewriteItemPut(s: State, x: nat)
    requires Inv(s) && x in s.txns && s.txns[x].stage.Rewriting? && s.txns[x].stage.written < |s.txns[x].stage.target|
    requires s.db.nextPosition <= MAX_INT64
    ensures Inv(Put(s.(db := Draw(s.db)), x, WithRewriteItem(s.db, s.txns[x])))
  {
    RewriteItemMove(s.db, s.txns[x]);
    RewriteItemAdmissible(s, x);
    MovesDrawing(s, x, WithRewriteItem(s.db, s.txns[x]), Share);
  }

  lemma RewriteItemKeeps(s: State, x: nat)
    requires Inv(s) && x in s.txns && s.txns[x].stage.Rewriting? && s.txns[x].stage.written < |s.txns[x].stage.target|
    requires RewriteItem(s, x).Some?
    ensures Inv(RewriteItem(s, x).value)
  {
    RewriteItemResult(s, x);
    RewriteItemPut(s, x);
  }

  /** What a plan promises: a duplicate-free order of stored messages, none of them to be dropped. */
  lemma PlanTargets(t: Tables, a: Txn, target: seq<UUID>, dropped: seq<UUID>)
    requires Consistent(t) && PlanHolds(t, a, target, dropped)
    ensures Targets(t, a.conversation, target, Elements(dropped)) && Targets(t, a.conversation, target, {})
    ensures Elements(target) !! Elements(dropped)
  {
    match a.op
    case Replace(spec) => ReplaceTargets(t, a.conversation, spec);
    case Delete(spec) => DeleteTargets(t, a.conversation, spec);
    case _ =>
  }

  function WithDropped(a: Txn): Txn
    requires a.stage.Rewriting?
  {
    a.(stage := MessagesDropped(a.stage.target, a.stage.dropped), writes := a.writes.(droppedMessages := Elements(a.stage.dropped)))
  }

  lemma DropListedMove(t: Tables, a: Txn)
    requires TxnInv(t, a) && a.stage.Rewriting? && a.stage.written == |a.stage.target|
    ensures TxnInv(t, WithDropped(a))
  {
  }

  lemma DropListedResult(s: State, x: nat)
    requires Consistent(s.db) && x in s.txns && TxnInv(s.db, s.txns[x])
    requires s.txns[x].stage.Rewriting? && s.txns[x].stage.written == |s.txns[x].stage.target|
    ensures DropListed(s, x).value == Put(s, x, WithDropped(s.txns[x]))
  {
    var a := s.txns[x];
    PlanTargets(s.db, a, a.stage.target, a.stage.dropped);
    DropTouchesNoItem(s.db, a.writes, a.conversation, a.stage.target, a.stage.dropped);
  }

  lemma DropListedKeeps(s: State, x: nat)
    requires Inv(s) && x in s.txns && s.txns[x].stage.Rewriting? && s.txns[x].stage.written == |s.txns[x].stage.target|
    ensures Inv(DropListed(s, x).value)
  {
    DropListedResult(s, x);
    DropListedMove(s.db, s.txns[x]);
    Moves(s, x, s.db.nextPosition, WithDropped(s.txns[x]), Share);
  }

  lemma CountRewrittenMove(t: Tables, a: Txn, target: seq<UUID>, dropped: seq<UUID>, w: Writes)
    requires a.held == {Update} && a.writes.conversations == map[]
    requires RewriteHolds(t, a, target, dropped, |target|, Elements(dropped))
    requires SetCount(t, a.writes, a.conversation, |target|, a.now) == Some(w)
    ensures w == a.writes.(conversations := w.conversations) && w.conversations.Keys == {a.conversation}
    ensures TxnInv(t, a.(stage := ReadyToRewrite(target, dropped), writes := w, held := a.held + {NoKeyUpdate}))
  {
    PlusEmpty(t.conversations);
    assert Counted(t, w, a.conversation, |target|);
  }

  lemma CountRewrittenKeeps(s: State, x: nat, target: seq<UUID>, dropped: seq<UUID>)
    requires Inv(s) && x in s.txns && s.txns[x].held == {Update} && s.txns[x].writes.conversations == map[]
    requires RewriteHolds(s.db, s.txns[x], target, dropped, |target|, Elements(dropped))
    requires !s.txns[x].stage.Begun? && CountRewritten(s, x, target, dropped).Some?
    ensures Inv(CountRewritten(s, x, target, dropped).value)
  {
    var a := s.txns[x];
    var w := SetCount(s.db, a.writes, a.conversation, |target|, a.now).value;
    CountRewrittenMove(s.db, a, target, dropped, w);
    Moves(s, x, s.db.nextPosition, a.(stage := ReadyToRewrite(target, dropped), writes := w, held := a.held + {NoKeyUpdate}), NoKeyUpdate);
  }

  // ---------------------------------------------------------------- snapshot

  lemma FetchKeeps(s: State, x: nat)
    requires Inv(s) && x in s.txns && s.txns[x].op.Snapshot? && s.txns[x].stage.Begun? && FetchMessages(s, x).Some?
    ensures Inv(FetchMessages(s, x).value)
  {
    var a := s.txns[x];
    var a' := FetchMessages(s, x).value.txns[x];
    Moves(s, x, s.db.nextPosition, a', Share);
  }

  function WithSnapshot(a: Txn): Txn
    requires a.op.Snapshot? && a.stage.Fetched?
  {
    a.(stage := Copying(a.stage.found, 0), held := a.held + {KeyShare},
       writes := a.writes.(snapshots := map[a.op.id := SnapshotRow(a.conversation, a.now, map[])]))
  }

  lemma StartSnapshotMove(t: Tables, a: Txn)
    requires TxnInv(t, a) && a.op.Snapshot? && a.stage.Fetched? && a.op.id !in t.snapshots
    ensures TxnInv(t, WithSnapshot(a))
  {
  }

  lemma StartSnapshotKeeps(s: State, x: nat)
    requires Inv(s) && x in s.txns && s.txns[x].op.Snapshot? && s.txns[x].stage.Fetched? && StartSnapshot(s, x).Some?
    ensures Inv(StartSnapshot(s, x).value)
  {
    var a := s.txns[x];
    var a' := WithSnapshot(a);
    StartSnapshotMove(s.db, a);
    forall y | y in s.txns && y != x ensures PairInv(s.db, a', s.txns[y]) && PairInv(s.db, s.txns[y], a') {
      assert PairInv(s.db, a, s.txns[y]);
      PairsKeep(s, x, a', KeyShare, y);
    }
    LocalStep(s, x, s.db.nextPosition, a');
  }

  lemma CopyMessageKeeps(s: State, x: nat)
    requires Inv(s) && x in s.txns && s.txns[x].op.Snapshot? && s.txns[x].stage.Copying? && CopyMessage(s, x).Some?
    ensures Inv(CopyMessage(s, x).value)
  {
    var a := s.txns[x];
    var a' := CopyMessage(s, x).value.txns[x];
    MessageCopied(s, x);
    Moves(s, x, s.db.nextPosition, a', Share);
  }

  lemma CopyAdded(t: Tables, a: Txn, found: map<UUID, MessageRow>, k: nat, item: SnapshotItem)
    requires SnapshotHolds(t, a, found, k) && k < |a.op.copied| && k <= 0x7FFF_FFFF
    requires a.op.copied[k] in found && CopyOf(a.op.copied[k], found[a.op.copied[k]]) == Some(item)
    ensures var row := a.writes.snapshots[a.op.id];
            SnapshotHolds(t, a.(stage := Copying(found, k + 1),
                                writes := a.writes.(snapshots := map[a.op.id := row.(items := row.items[k := item])])), found, k + 1)
  {
  }

  lemma MessageCopied(s: State, x: nat)
    requires x in s.txns && s.txns[x].op.Snapshot? && s.txns[x].stage.Copying? && CopyMessage(s, x).Some?
    requires TxnInv(s.db, s.txns[x])
    ensures TxnInv(s.db, CopyMessage(s, x).value.txns[x])
  {
    var a := s.txns[x];
    var id, k, found := a.op.id, a.stage.done, a.stage.found;
    CopyAdded(s.db, a, found, k, CopyOf(a.op.copied[k], found[a.op.copied[k]]).value);
  }
}
