/**
 * The five tables of migrations/0001_init.sql, the private writes of a transaction on top of them, and
 * the effect of each SQL statement the store issues. Snapshot items are kept inside their snapshot row.
 */
module Tables {
  import opened Base
  import opened Body
  import opened Columns
  import Rows

  datatype ConversationRow = ConversationRow(messageCount: int, version: int, updatedAt: Time)

  datatype MessageRow = MessageRow(conversation: UUID, role: int16, kind: string, columns: MessageColumns, createdAt: Time)

  datatype Item = Item(conversation: UUID, message: UUID)

  /** `hashed` stands for the column body_sha256: it holds the bytes whose SHA-256 is stored. */
  datatype SnapshotItem = SnapshotItem(
    message: UUID, role: int16, kind: string, columns: MessageColumns, hashed: seq<byte>, createdAt: Time)

  datatype SnapshotRow = SnapshotRow(conversation: UUID, createdAt: Time, items: map<nat, SnapshotItem>)

  datatype Message = Message(
    id: UUID, conversation: UUID, role: int16, kind: string, body: MessageBody, createdAt: Time)

  datatype Metadata = Metadata(id: UUID, messageCount: int, updatedAt: Time, version: int)

  /** Items are keyed by position; positions come from one sequence, which no rollback turns back. */
  datatype Tables = Tables(
    conversations: map<UUID, ConversationRow>,
    messages: map<UUID, MessageRow>,
    items: map<nat, Item>,
    snapshots: map<UUID, SnapshotRow>,
    nextPosition: nat)

  const EMPTY_DATABASE := Tables(map[], map[], map[], map[], 1)

  /** The items of one conversation: position to message id. */
  function ItemsOf(items: map<nat, Item>, c: UUID): map<nat, UUID> {
    map p | p in items && items[p].conversation == c :: items[p].message
  }

  /** SELECT message_id ... WHERE conversation_id = c ORDER BY position. */
  function Order(t: Tables, c: UUID): seq<UUID> {
    Rows.Ordered(ItemsOf(t.items, c), t.nextPosition)
  }

  /** The ids of the messages stored for `c`, listed or not. */
  function StoredIDs(t: Tables, c: UUID): set<UUID> {
    set m | m in t.messages && t.messages[m].conversation == c
  }

  function Version(t: Tables, c: UUID): int {
    if c in t.conversations then t.conversations[c].version else 0
  }

  function ToMessage(id: UUID, row: MessageRow): Option<Message> {
    match Decode(row.columns)
    case None => None
    case Some(body) => Some(Message(id, row.conversation, row.role, row.kind, body, row.createdAt))
  }

  /** A snapshot item as a message of the snapshot's conversation. */
  function SnapshotMessage(c: UUID, item: SnapshotItem): Option<Message> {
    match Decode(item.columns)
    case None => None
    case Some(body) => Some(Message(item.message, c, item.role, item.kind, body, item.createdAt))
  }

  /** Columns that decode to a body which encodes to them again. */
  ghost predicate Stored(cols: MessageColumns) {
    Decode(cols).Some? && Encode(Decode(cols).value) == Some(cols)
  }

  /** Whatever passes the decode check after encoding is stored in that sense. */
  lemma DecodeCheckStores(b: MessageBody, cols: MessageColumns)
    requires Encode(b) == Some(cols) && Decode(cols).Some?
    ensures Stored(cols) && Recoverable(b) && Decode(cols) == Some(b.Normal())
  {
    ColumnsRoundTrip(b);
    ReencodeReproduces(b);
  }

  /** The copy of a message row: decoded, re-encoded, with the deterministic bytes to hash. */
  ghost function CopyOf(id: UUID, row: MessageRow): Option<SnapshotItem> {
    match Decode(row.columns)
    case None => None
    case Some(body) =>
      match Encode(body)
      case None => None
      case Some(cols) => Some(SnapshotItem(id, row.role, row.kind, cols, DeterministicBytes(body), row.createdAt))
  }

  /** The requested ids in order, duplicates kept, each with the copy of the row that was fetched. */
  ghost predicate CopiesOf(row: SnapshotRow, c: UUID, copied: seq<UUID>, found: map<UUID, MessageRow>) {
    && row.conversation == c
    && (forall i: nat :: i in row.items <==> i < |copied|)
    && (forall i :: 0 <= i < |copied| ==> copied[i] in found && CopyOf(copied[i], found[copied[i]]) == Some(row.items[i]))
  }

  /** Copying a stored row keeps its columns; listed, the copy is the message that was appended. */
  lemma CopyIsFaithful(id: UUID, row: MessageRow)
    requires Stored(row.columns)
    ensures CopyOf(id, row).Some? && CopyOf(id, row).value.columns == row.columns
    ensures ToMessage(id, row).Some?
    ensures SnapshotMessage(row.conversation, CopyOf(id, row).value) == ToMessage(id, row)
    ensures CopyOf(id, row).value.hashed == DeterministicBytes(ToMessage(id, row).value.body)
  {
  }

  // ---------------------------------------------------------------- private writes

  datatype Writes = Writes(
    conversations: map<UUID, ConversationRow>,
    messages: map<UUID, MessageRow>, droppedMessages: set<UUID>,
    items: map<nat, Item>, droppedItems: set<nat>,
    snapshots: map<UUID, SnapshotRow>)

  const NO_WRITES := Writes(map[], map[], {}, map[], {}, map[])

  /** What the writing transaction sees, and what everyone sees once it has committed. */
  function Apply(t: Tables, w: Writes): Tables {
    Tables(t.conversations + w.conversations,
           (t.messages - w.droppedMessages) + w.messages,
           (t.items - w.droppedItems) + w.items,
           t.snapshots + w.snapshots,
           t.nextPosition)
  }

  // ---------------------------------------------------------------- statements; None is a constraint violation

  /** INSERT INTO conversations ... ON CONFLICT DO NOTHING. */
  function InsertConversation(t: Tables, w: Writes, c: UUID, now: Time): Writes {
    if c in Apply(t, w).conversations then w
    else w.(conversations := w.conversations[c := ConversationRow(0, 0, now)])
  }

  function InsertMessage(t: Tables, w: Writes, id: UUID, row: MessageRow): Option<Writes> {
    var view := Apply(t, w);
    if id in view.messages || row.conversation !in view.conversations then None
    else Some(w.(messages := w.messages[id := row]))
  }

  /** The position has already been drawn; it must be a BIGINT. */
  function InsertItem(t: Tables, w: Writes, position: nat, item: Item): Option<Writes> {
    var view := Apply(t, w);
    if position > MAX_INT64 || item.conversation !in view.conversations || item.message !in view.messages
       || exists p :: p in view.items && view.items[p] == item
    then None
    else Some(w.(items := w.items[position := item]))
  }

  /** DELETE FROM conversation_items WHERE conversation_id = c. */
  function ClearItems(t: Tables, w: Writes, c: UUID): Writes {
    DropRows(w, {}, ItemsOf(Apply(t, w).items, c).Keys)
  }

  /** The messages of `c` among `ids`. */
  function Condemned(messages: map<UUID, MessageRow>, c: UUID, ids: seq<UUID>): set<UUID> {
    set m | m in ids && m in messages && messages[m].conversation == c
  }

  /** The items, of any conversation, that a deletion of the messages takes with it. */
  function Cascade(items: map<nat, Item>, gone: set<UUID>): set<nat> {
    set p | p in items && items[p].message in gone
  }

  function DropRows(w: Writes, gone: set<UUID>, ps: set<nat>): Writes {
    w.(messages := w.messages - gone, droppedMessages := w.droppedMessages + gone,
       items := w.items - ps, droppedItems := w.droppedItems + ps)
  }

  /** DELETE FROM messages WHERE conversation_id = c AND id = ANY(ids), cascading to items. */
  function DropMessages(t: Tables, w: Writes, c: UUID, ids: seq<UUID>): Writes {
    var view := Apply(t, w);
    var gone := Condemned(view.messages, c, ids);
    DropRows(w, gone, Cascade(view.items, gone))
  }

  /** UPDATE conversations SET message_count = count, version = version + 1; the count is a BIGINT. */
  function SetCount(t: Tables, w: Writes, c: UUID, count: int, now: Time): Option<Writes> {
    var view := Apply(t, w);
    if c !in view.conversations || count > MAX_INT64 || view.conversations[c].version >= MAX_INT64 then None
    else Some(w.(conversations := w.conversations[c := ConversationRow(count, view.conversations[c].version + 1, now)]))
  }

  /** The same with message_count = message_count + n. */
  function AddCount(t: Tables, w: Writes, c: UUID, n: nat, now: Time): Option<Writes> {
    var view := Apply(t, w);
    if c !in view.conversations then None
    else SetCount(t, w, c, view.conversations[c].messageCount + n, now)
  }

  // ---------------------------------------------------------------- consistency

  ghost predicate ItemFits(t: Tables, p: nat) 
    requires p in t.items
  {
    var item := t.items[p];
    && 0 < p < t.nextPosition && p <= MAX_INT64
    && item.conversation in t.conversations
    && item.message in t.messages
    && t.messages[item.message].conversation == item.conversation
  }

  /** order_idx is an INTEGER and counts from zero. */
  ghost predicate SnapshotFits(t: Tables, s: SnapshotRow) {
    && s.conversation in t.conversations && |s.items| <= 0x8000_0000
    && (forall i: nat :: i in s.items <==> i < |s.items|)
  }

  ghost predicate ItemsFit(t: Tables) {
    forall p :: p in t.items ==> ItemFits(t, p)
  }

  /** UNIQUE (conversation_id, message_id). */
  ghost predicate ItemsUnique(items: map<nat, Item>) {
    forall p, q :: p in items && q in items && items[p] == items[q] ==> p == q
  }

  ghost predicate MessagesFit(t: Tables) {
    forall m :: m in t.messages ==> t.messages[m].conversation in t.conversations
  }

  ghost predicate CountersExact(t: Tables) {
    forall c :: c in t.conversations ==> t.conversations[c].messageCount == |Order(t, c)|
  }

  ghost predicate SnapshotsFit(t: Tables) {
    forall s :: s in t.snapshots ==> SnapshotFits(t, t.snapshots[s])
  }

  /**
   * What the schema and the store keep true between transactions: foreign keys, items only of the
   * conversation's own messages, unique items and exact counters.
   */
  ghost predicate Consistent(t: Tables) {
    ItemsFit(t) && ItemsUnique(t.items) && MessagesFit(t) && CountersExact(t) && SnapshotsFit(t)
  }

  /** No committed row changes; a position may have been drawn. */
  ghost predicate Quiet(t: Tables, u: Tables) {
    u == t.(nextPosition := u.nextPosition) && t.nextPosition <= u.nextPosition
  }

  /** Every message row and every snapshot item decodes. */
  ghost predicate Readable(t: Tables) {
    && (forall m :: m in t.messages ==> Stored(t.messages[m].columns))
    && (forall s, i :: s in t.snapshots && i in t.snapshots[s].items ==> Stored(t.snapshots[s].items[i].columns))
  }

  /** Transactions that write readable rows keep the tables readable. */
  lemma ReadableApply(t: Tables, w: Writes)
    requires Readable(t)
    requires forall m :: m in w.messages ==> Stored(w.messages[m].columns)
    requires forall s, i :: s in w.snapshots && i in w.snapshots[s].items ==> Stored(w.snapshots[s].items[i].columns)
    ensures Readable(Apply(t, w))
  {
  }

  /** The stored counter equals COUNT(*) over the conversation's items. */
  lemma CounterIsCount(t: Tables, c: UUID)
    requires Consistent(t) && c in t.conversations
    ensures t.conversations[c].messageCount == |ItemsOf(t.items, c)|
  {
    forall p | p in ItemsOf(t.items, c) ensures p < t.nextPosition { assert ItemFits(t, p); }
    Rows.OrderedLength(ItemsOf(t.items, c), t.nextPosition);
  }

  /** The order has no repeats and lists only stored messages of its own conversation. */
  lemma OrderSound(t: Tables, c: UUID)
    requires Consistent(t)
    ensures NoDup(Order(t, c)) && Elements(Order(t, c)) <= StoredIDs(t, c)
    ensures c !in t.conversations ==> Order(t, c) == []
  {
    var m := ItemsOf(t.items, c);
    forall p, q | p in m && q in m && m[p] == m[q] ensures p == q {
      assert t.items[p] == t.items[q];
    }
    Rows.OrderedNoDup(m, t.nextPosition);
    forall id | id in Order(t, c) ensures id in StoredIDs(t, c) && c in t.conversations {
      Rows.OrderedMembers(m, t.nextPosition, id);
      var p :| p in m && m[p] == id;
      assert ItemFits(t, p);
    }
    assert Order(t, c) != [] ==> Order(t, c)[0] in Order(t, c);
  }

  /** Drawing positions, used or not, changes no order. */
  lemma DrawingKeepsOrder(t: Tables, n: nat, c: UUID)
    requires Consistent(t) && t.nextPosition <= n
    ensures Order(t.(nextPosition := n), c) == Order(t, c)
  {
    forall p | p in ItemsOf(t.items, c) ensures p < t.nextPosition { assert ItemFits(t, p); }
    Rows.Grow(ItemsOf(t.items, c), t.nextPosition, n);
  }

  lemma DrawingKeepsConsistent(t: Tables, n: nat)
    requires Consistent(t) && t.nextPosition <= n
    ensures Consistent(t.(nextPosition := n))
  {
    var u := t.(nextPosition := n);
    forall p | p in u.items ensures ItemFits(u, p) { assert ItemFits(t, p); }
    forall c | c in u.conversations ensures u.conversations[c].messageCount == |Order(u, c)| {
      DrawingKeepsOrder(t, n, c);
    }
    forall s | s in u.snapshots ensures SnapshotFits(u, u.snapshots[s]) { assert SnapshotFits(t, t.snapshots[s]); }
  }
}
