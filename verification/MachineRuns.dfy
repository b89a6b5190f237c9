/** Theorems about every run of the machine. */
module MachineRuns {
  import opened Base
  import opened Machine
  import opened MachineCommit
  import opened MachineInvariant
  import opened MachineSteps
  import opened Tables

  // ---------------------------------------------------------------- the invariant

  lemma NextKeeps(s: State, x: nat)
    requires Inv(s) && x in s.txns && Next(s, x).Some?
    ensures Inv(Next(s, x).value)
  {
    var a := s.txns[x];
    assert TxnInv(s.db, a);
    if ReadyToCommit(a) {
      CommitKeeps(s, x);
    } else {
      match a.op
      case Append(_, _) => NextAppendKeeps(s, x);
      case Snapshot(_, _) => NextSnapshotKeeps(s, x);
      case _ => NextRewriteKeeps(s, x);
    }
  }

  lemma NextAppendKeeps(s: State, x: nat)
    requires Inv(s) && x in s.txns && s.txns[x].op.Append? && !ReadyToCommit(s.txns[x]) && Next(s, x).Some?
    ensures Inv(Next(s, x).value)
  {
    var a := s.txns[x];
    assert TxnInv(s.db, a);
    if a.stage.Begun? {
      EnsureKeeps(s, x);
    } else if a.stage.k < a.stage.m {
      AppendItemKeeps(s, x);
    } else if a.stage.m < |a.op.ids| {
      AppendMessageKeeps(s, x);
    } else {
      CountAppendedKeeps(s, x);
    }
  }

  lemma NextSnapshotKeeps(s: State, x: nat)
    requires Inv(s) && x in s.txns && s.txns[x].op.Snapshot? && !ReadyToCommit(s.txns[x]) && Next(s, x).Some?
    ensures Inv(Next(s, x).value)
  {
    var a := s.txns[x];
    assert TxnInv(s.db, a);
    if a.stage.Begun? {
      FetchKeeps(s, x);
    } else if a.stage.Fetched? {
      StartSnapshotKeeps(s, x);
    } else {
      CopyMessageKeeps(s, x);
    }
  }

  lemma NextRewriteKeeps(s: State, x: nat)
    requires Inv(s) && x in s.txns && (s.txns[x].op.Replace? || s.txns[x].op.Delete?)
    requires !ReadyToCommit(s.txns[x]) && Next(s, x).Some?
    ensures Inv(Next(s, x).value)
  {
    var a := s.txns[x];
    assert TxnInv(s.db, a);
    match a.stage
    case Begun => LockKeeps(s, x);
    case Locked => ReadOrderKeeps(s, x);
    case OrderRead(_) => DecideKeeps(s, x);
    case Planned(_, _) => ClearKeeps(s, x);
    case Rewriting(target, dropped, k) =>
      if k < |target| {
        RewriteItemKeeps(s, x);
      } else if a.op.Delete? {
        DropListedKeeps(s, x);
      } else {
        CountRewrittenKeeps(s, x, target, dropped);
      }
    case MessagesDropped(target, dropped) => CountRewrittenKeeps(s, x, target, dropped);
    case _ =>
  }

  lemma StepKeeps(s: State, e: Event)
    requires Inv(s) && Step(s, e).Some?
    ensures Inv(Step(s, e).value)
  {
    match e
    case Begin(x, c, now, op) => BeginKeeps(s, x, c, now, op);
    case Advance(x) => NextKeeps(s, x);
    case Abort(x) => AbortKeeps(s, x);
  }

  lemma {:induction false} RunKeeps(s: State, events: seq<Event>)
    requires Inv(s) && Run(s, events).Some?
    ensures Inv(Run(s, events).value)
  {
    if events != [] {
      RunKeeps(s, events[..|events| - 1]);
      StepKeeps(Run(s, events[..|events| - 1]).value, events[|events| - 1]);
    }
  }

  lemma InitialHolds()
    ensures Inv(INITIAL)
  {
  }

  /**
   * In every reachable state each stored counter is the number of the conversation's items, and the
   * order is a duplicate-free list of messages stored for that conversation.
   */
  lemma CountersAlwaysExact(events: seq<Event>, c: UUID)
    requires Run(INITIAL, events).Some?
    ensures var t := Run(INITIAL, events).value.db;
            && (c in t.conversations ==> t.conversations[c].messageCount == |ItemsOf(t.items, c)| == |Order(t, c)|)
            && NoDup(Order(t, c)) && Elements(Order(t, c)) <= StoredIDs(t, c)
  {
    InitialHolds();
    RunKeeps(INITIAL, events);
    var t := Run(INITIAL, events).value.db;
    OrderSound(t, c);
    if c in t.conversations {
      CounterIsCount(t, c);
    }
  }

  /** While a rewrite holds its lock, the order it read is still the committed order. */
  lemma LockedOrderIsCommitted(events: seq<Event>, x: nat)
    requires Run(INITIAL, events).Some? && x in Run(INITIAL, events).value.txns
    ensures var s := Run(INITIAL, events).value;
            var a := s.txns[x];
            && (a.stage.OrderRead? ==> a.stage.order == Order(s.db, a.conversation))
            && (a.stage.Planned? || a.stage.Rewriting? || a.stage.MessagesDropped? || a.stage.ReadyToRewrite? ==>
                  PlanHolds(s.db, a, a.stage.target, a.stage.dropped))
  {
    InitialHolds();
    RunKeeps(INITIAL, events);
    assert TxnInv(Run(INITIAL, events).value.db, Run(INITIAL, events).value.txns[x]);
  }

  // ---------------------------------------------------------------- one step on the committed tables

  /** Everything but the mover's own stage, locks and writes stays. */
  ghost predicate OnlyMoves(s: State, r: State, x: nat) {
    && Quiet(s.db, r.db) && x in s.txns && x in r.txns && r.txns == s.txns[x := r.txns[x]]
    && r.txns[x].op == s.txns[x].op && r.txns[x].conversation == s.txns[x].conversation
  }

  lemma NextAppendMoves(s: State, x: nat)
    requires x in s.txns && s.txns[x].op.Append? && !ReadyToCommit(s.txns[x]) && Next(s, x).Some?
    ensures OnlyMoves(s, Next(s, x).value, x)
  {
  }

  lemma NextRewriteMoves(s: State, x: nat)
    requires x in s.txns && (s.txns[x].op.Replace? || s.txns[x].op.Delete?) && !ReadyToCommit(s.txns[x]) && Next(s, x).Some?
    ensures OnlyMoves(s, Next(s, x).value, x)
  {
  }

  lemma NextSnapshotMoves(s: State, x: nat)
    requires x in s.txns && s.txns[x].op.Snapshot? && !ReadyToCommit(s.txns[x]) && Next(s, x).Some?
    ensures OnlyMoves(s, Next(s, x).value, x)
  {
  }

  /** Only commits change committed rows. */
  lemma NextWithoutCommit(s: State, x: nat)
    requires x in s.txns && !ReadyToCommit(s.txns[x]) && Next(s, x).Some?
    ensures OnlyMoves(s, Next(s, x).value, x)
  {
    match s.txns[x].op
    case Append(_, _) => NextAppendMoves(s, x);
    case Snapshot(_, _) => NextSnapshotMoves(s, x);
    case _ => NextRewriteMoves(s, x);
  }

  ghost predicate CommitEffect(t: Tables, u: Tables, a: Txn) {
    || (a.op.Append? && Appended(t, u, a))
    || ((a.op.Replace? || a.op.Delete?) && Rewritten(t, u, a))
    || (a.op.Snapshot? && SnapshotTaken(t, u, a))
  }

  /**
   * Each step either changes no committed row or commits one transaction, and then the committed
   * tables change by exactly one append, replacement, deletion or snapshot.
   */
  lemma StepIsOneOperation(s: State, e: Event)
    requires Inv(s) && Step(s, e).Some?
    ensures || Quiet(s.db, Step(s, e).value.db)
            || (e.Advance? && e.x in s.txns && ReadyToCommit(s.txns[e.x])
                && CommitEffect(s.db, Step(s, e).value.db, s.txns[e.x]))
  {
    if e.Advance? {
      if ReadyToCommit(s.txns[e.x]) {
        CommitKeeps(s, e.x);
      } else {
        NextWithoutCommit(s, e.x);
      }
    }
  }
}
