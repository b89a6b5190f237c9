/**
 * The store's transactions as interleaved steps. Every SQL statement is one step; row locks on the
 * conversation row follow the conflict table of section 13.3.2 of the PostgreSQL documentation, and
 * statements see what was committed when they run (READ COMMITTED) plus the transaction's own writes.
 */
module Machine {
  import opened Base
  import Columns
  import opened RangeOps
  import opened Tables

  datatype Mode = KeyShare | Share | NoKeyUpdate | Update

  predicate Conflicts(a: Mode, b: Mode) {
    match a
    case KeyShare => b == Update
    case Share => b == NoKeyUpdate || b == Update
    case NoKeyUpdate => b != KeyShare
    case Update => true
  }

  /** `rows` are the encoded messages of an append, `ids` the identifiers drawn for them. */
  datatype Operation =
    | Append(ids: seq<UUID>, rows: seq<MessageRow>)
    | Replace(replaceSpec: ReplaceSpec)
    | Delete(deleteSpec: DeleteSpec)
    | Snapshot(id: UUID, copied: seq<UUID>)

  /** Where a transaction stands. `target` is the order being written, `dropped` the messages to delete. */
  datatype Stage =
    | Begun
    | Appending(m: nat, k: nat)
    | ReadyToAppend
    | Locked
    | OrderRead(order: seq<UUID>)
    | Planned(target: seq<UUID>, dropped: seq<UUID>)
    | Rewriting(target: seq<UUID>, dropped: seq<UUID>, written: nat)
    | MessagesDropped(target: seq<UUID>, dropped: seq<UUID>)
    | ReadyToRewrite(target: seq<UUID>, dropped: seq<UUID>)
    | Fetched(found: map<UUID, MessageRow>)
    | Copying(found: map<UUID, MessageRow>, done: nat)

  /** `before` remembers the items committed in the conversation when the first own item was inserted. */
  datatype Txn = Txn(
    conversation: UUID, now: Time, op: Operation, stage: Stage, held: set<Mode>, writes: Writes, before: map<nat, UUID>)

  datatype State = State(db: Tables, txns: map<nat, Txn>)

  datatype Event = Begin(x: nat, conversation: UUID, now: Time, op: Operation) | Advance(x: nat) | Abort(x: nat)

  const INITIAL := State(EMPTY_DATABASE, map[])

  /** The transactions holding `mode` on the row of conversation `c`. */
  function Holders(s: State, c: UUID, mode: Mode): set<nat> {
    set y | y in s.txns && s.txns[y].conversation == c && mode in s.txns[y].held
  }

  /** No other transaction holds a conflicting lock on the conversation row. */
  ghost predicate Grantable(s: State, x: nat, c: UUID, mode: Mode) {
    forall h, y :: y in Holders(s, c, h) && Conflicts(mode, h) ==> y == x
  }

  /** Requests refused before a transaction begins: no messages, no bounds, bodies that fail to encode. */
  ghost predicate Acceptable(c: UUID, op: Operation) {
    match op
    case Append(ids, rows) =>
      && rows != [] && |ids| == |rows|
      && forall i :: 0 <= i < |rows| ==> rows[i].conversation == c && exists b :: Columns.Encode(b) == Some(rows[i].columns)
    case Replace(spec) => spec.fromID.Some? || spec.toID.Some?
    case Delete(spec) => spec.fromID.Some? || spec.toID.Some?
    case Snapshot(_, copied) => copied != []
  }

  function Put(s: State, x: nat, a: Txn): State {
    s.(txns := s.txns[x := a])
  }

  function Draw(t: Tables): Tables {
    t.(nextPosition := t.nextPosition + 1)
  }

  // ---------------------------------------------------------------- append

  /** Waits while another transaction has inserted the same conversation and not yet ended. */
  ghost function EnsureConversation(s: State, x: nat): Option<State>
    requires x in s.txns
  {
    var a := s.txns[x];
    var c := a.conversation;
    if c !in s.db.conversations
       && exists y :: y in s.txns && y != x && s.txns[y].conversation == c && c in s.txns[y].writes.conversations
    then None
    else Some(Put(s, x, a.(stage := Appending(0, 0), writes := InsertConversation(s.db, a.writes, c, a.now))))
  }

  predicate LastDecoded(rows: seq<MessageRow>, m: nat)
    requires m <= |rows|
  {
    m > 0 ==> Columns.Decode(rows[m - 1].columns).Some?
  }

  /** The foreign-key check takes KEY SHARE; a clash with an id in flight waits. */
  ghost function AppendMessage(s: State, x: nat): Option<State>
    requires x in s.txns && s.txns[x].op.Append? && s.txns[x].stage.Appending?
  {
    var a := s.txns[x];
    var m := a.stage.m;
    if m >= |a.op.ids| || m >= |a.op.rows| || !LastDecoded(a.op.rows, m)
       || !Grantable(s, x, a.conversation, KeyShare)
       || exists y :: y in s.txns && y != x && a.op.ids[m] in s.txns[y].writes.messages
    then None
    else
      match InsertMessage(s.db, a.writes, a.op.ids[m], a.op.rows[m])
      case None => None
      case Some(w) => Some(Put(s, x, a.(stage := Appending(m + 1, a.stage.k), writes := w, held := a.held + {KeyShare})))
  }

  function AppendItem(s: State, x: nat): Option<State>
    requires x in s.txns && s.txns[x].op.Append? && s.txns[x].stage.Appending?
  {
    var a := s.txns[x];
    var c, k := a.conversation, a.stage.k;
    if k >= |a.op.ids| then None
    else
      match InsertItem(s.db, a.writes, s.db.nextPosition, Item(c, a.op.ids[k]))
      case None => None
      case Some(w) =>
        Some(Put(s.(db := Draw(s.db)), x,
                 a.(stage := Appending(a.stage.m, k + 1), writes := w,
                    before := if k == 0 then ItemsOf(s.db.items, c) else a.before)))
  }

  ghost function CountAppended(s: State, x: nat): Option<State>
    requires x in s.txns && s.txns[x].op.Append?
  {
    var a := s.txns[x];
    if !LastDecoded(a.op.rows, |a.op.rows|) || !Grantable(s, x, a.conversation, NoKeyUpdate) then None
    else
      match AddCount(s.db, a.writes, a.conversation, |a.op.ids|, a.now)
      case None => None
      case Some(w) => Some(Put(s, x, a.(stage := ReadyToAppend, writes := w, held := a.held + {NoKeyUpdate})))
  }

  // ---------------------------------------------------------------- replace and delete

  ghost function LockForUpdate(s: State, x: nat): Option<State>
    requires x in s.txns
  {
    var a := s.txns[x];
    if a.conversation !in s.db.conversations || !Grantable(s, x, a.conversation, Update) then None
    else Some(Put(s, x, a.(stage := Locked, held := a.held + {Update})))
  }

  function ReadOrder(s: State, x: nat): Option<State>
    requires x in s.txns
  {
    Some(Put(s, x, s.txns[x].(stage := OrderRead(Order(s.db, s.txns[x].conversation)))))
  }

  /** The existence query of a replacement runs here; errors leave only the rollback. */
  ghost function Decide(s: State, x: nat): Option<State>
    requires x in s.txns && s.txns[x].stage.OrderRead?
  {
    var a := s.txns[x];
    match a.op
    case Replace(spec) =>
      (match ReplaceOutcome(a.stage.order, StoredIDs(s.db, a.conversation), spec)
       case Ok(r) => Some(Put(s, x, a.(stage := Planned(r.order, []))))
       case Err(_) => None)
    case Delete(spec) =>
      (match DeleteOutcome(a.stage.order, spec)
       case Ok(d) => Some(Put(s, x, a.(stage := Planned(d.remaining, d.deleted))))
       case Err(_) => None)
    case _ => None
  }

  function Clear(s: State, x: nat): Option<State>
    requires x in s.txns && s.txns[x].stage.Planned?
  {
    var a := s.txns[x];
    Some(Put(s, x, a.(stage := Rewriting(a.stage.target, a.stage.dropped, 0),
                      writes := ClearItems(s.db, a.writes, a.conversation))))
  }

  function RewriteItem(s: State, x: nat): Option<State>
    requires x in s.txns && s.txns[x].stage.Rewriting? && s.txns[x].stage.written < |s.txns[x].stage.target|
  {
    var a := s.txns[x];
    var k := a.stage.written;
    match InsertItem(s.db, a.writes, s.db.nextPosition, Item(a.conversation, a.stage.target[k]))
    case None => None
    case Some(w) =>
      Some(Put(s.(db := Draw(s.db)), x, a.(stage := Rewriting(a.stage.target, a.stage.dropped, k + 1), writes := w)))
  }

  function DropListed(s: State, x: nat): Option<State>
    requires x in s.txns && s.txns[x].stage.Rewriting?
  {
    var a := s.txns[x];
    Some(Put(s, x, a.(stage := MessagesDropped(a.stage.target, a.stage.dropped),
                      writes := DropMessages(s.db, a.writes, a.conversation, a.stage.dropped))))
  }

  ghost function CountRewritten(s: State, x: nat, target: seq<UUID>, dropped: seq<UUID>): Option<State>
    requires x in s.txns
  {
    var a := s.txns[x];
    if !Grantable(s, x, a.conversation, NoKeyUpdate) then None
    else
      match SetCount(s.db, a.writes, a.conversation, |target|, a.now)
      case None => None
      case Some(w) => Some(Put(s, x, a.(stage := ReadyToRewrite(target, dropped), writes := w, held := a.held + {NoKeyUpdate})))
  }

  // ---------------------------------------------------------------- snapshot

  function FetchMessages(s: State, x: nat): Option<State>
    requires x in s.txns && s.txns[x].op.Snapshot?
  {
    var a := s.txns[x];
    var found := map m | m in a.op.copied && m in s.db.messages && s.db.messages[m].conversation == a.conversation
                   :: s.db.messages[m];
    if a.conversation !in s.db.conversations || exists m :: m in a.op.copied && m !in found then None
    else Some(Put(s, x, a.(stage := Fetched(found))))
  }

  ghost function StartSnapshot(s: State, x: nat): Option<State>
    requires x in s.txns && s.txns[x].op.Snapshot? && s.txns[x].stage.Fetched?
  {
    var a := s.txns[x];
    var id := a.op.id;
    if id in s.db.snapshots || !Grantable(s, x, a.conversation, KeyShare)
       || exists y :: y in s.txns && y != x && id in s.txns[y].writes.snapshots
    then None
    else Some(Put(s, x, a.(stage := Copying(a.stage.found, 0), held := a.held + {KeyShare},
                           writes := a.writes.(snapshots := map[id := SnapshotRow(a.conversation, a.now, map[])]))))
  }

  /** order_idx is an INTEGER. */
  ghost function CopyMessage(s: State, x: nat): Option<State>
    requires x in s.txns && s.txns[x].op.Snapshot? && s.txns[x].stage.Copying?
  {
    var a := s.txns[x];
    var id, k := a.op.id, a.stage.done;
    if k >= |a.op.copied| || k > 0x7FFF_FFFF || id !in a.writes.snapshots || a.op.copied[k] !in a.stage.found then None
    else
      var row := a.writes.snapshots[id];
      match CopyOf(a.op.copied[k], a.stage.found[a.op.copied[k]])
      case None => None
      case Some(item) =>
        Some(Put(s, x, a.(stage := Copying(a.stage.found, k + 1),
                          writes := a.writes.(snapshots := map[id := row.(items := row.items[k := item])]))))
  }

  // ---------------------------------------------------------------- the machine

  function Commit(s: State, x: nat): State
    requires x in s.txns
  {
    State(Apply(s.db, s.txns[x].writes), s.txns - {x})
  }

  predicate ReadyToCommit(a: Txn) {
    || a.stage.ReadyToAppend?
    || a.stage.ReadyToRewrite?
    || (a.op.Snapshot? && a.stage.Copying? && a.stage.done == |a.op.copied|)
  }

  /** The next statement of transaction `x`; None while it waits or when only a rollback is left. */
  ghost function Next(s: State, x: nat): Option<State>
    requires x in s.txns
  {
    var a := s.txns[x];
    if ReadyToCommit(a) then Some(Commit(s, x))
    else match a.op
      case Append(ids, rows) =>
        (match a.stage
         case Begun => EnsureConversation(s, x)
         case Appending(m, k) =>
           if k < m then AppendItem(s, x) else if m < |ids| then AppendMessage(s, x) else CountAppended(s, x)
         case _ => None)
      case Snapshot(_, _) =>
        (match a.stage
         case Begun => FetchMessages(s, x)
         case Fetched(_) => StartSnapshot(s, x)
         case Copying(_, _) => CopyMessage(s, x)
         case _ => None)
      case _ =>
        (match a.stage
         case Begun => LockForUpdate(s, x)
         case Locked => ReadOrder(s, x)
         case OrderRead(_) => Decide(s, x)
         case Planned(_, _) => Clear(s, x)
         case Rewriting(target, dropped, k) =>
           if k < |target| then RewriteItem(s, x)
           else if a.op.Delete? then DropListed(s, x)
           else CountRewritten(s, x, target, dropped)
         case MessagesDropped(target, dropped) => CountRewritten(s, x, target, dropped)
         case _ => None)
  }

  ghost function Step(s: State, e: Event): Option<State> {
    match e
    case Begin(x, c, now, op) =>
      if x in s.txns || !Acceptable(c, op) then None
      else Some(Put(s, x, Txn(c, now, op, Begun, {}, NO_WRITES, map[])))
    case Advance(x) => if x in s.txns then Next(s, x) else None
    case Abort(x) => if x in s.txns then Some(s.(txns := s.txns - {x})) else None
  }

  /** The state after a sequence of enabled events. */
  ghost function Run(s: State, events: seq<Event>): Option<State> {
    if events == [] then Some(s)
    else
      var last := |events| - 1;
      match Run(s, events[..last])
      case None => None
      case Some(r) => Step(r, events[last])
  }
}
