/** What appending promises, outcome by outcome, and the lemmas that carry the loop of the append there. */
module AppendOutcome {
  import opened Base
  import opened Body
  import opened Columns
  import opened Effects
  import opened Outcomes
  import opened Tables

  datatype AppendInput = AppendInput(role: int16, kind: string, body: MessageBody)

  ghost function RowOf(c: UUID, input: AppendInput, now: Time): MessageRow {
    MessageRow(c, input.role, input.kind, if input.body.Valid() then Encode(input.body).value else EMPTY, now)
  }

  ghost function RowsOf(c: UUID, inputs: seq<AppendInput>, now: Time): seq<MessageRow> {
    seq(|inputs|, i requires 0 <= i < |inputs| => RowOf(c, inputs[i], now))
  }

  function MessageOf(c: UUID, input: AppendInput, id: UUID, now: Time): Message {
    Message(id, c, input.role, input.kind, input.body.Normal(), now)
  }

  /** The batch is at the end of the order, which counts one version on; nothing else has changed. */
  ghost predicate OrderAppended(t: Tables, u: Tables, c: UUID, ids: seq<UUID>, now: Time, metadata: Metadata) {
    && Order(u, c) == Order(t, c) + ids
    && Counts(t, u, c, now, metadata) && Elsewhere(t, u, c) && u.snapshots == t.snapshots
  }

  /** Each message is stored exactly as returned, under an id that was not in use; the others are kept. */
  ghost predicate MessagesAppended(
    t: Tables, u: Tables, c: UUID, inputs: seq<AppendInput>, ids: seq<UUID>, now: Time, messages: seq<Message>)
  {
    && |ids| == |inputs| == |messages| && NoDup(ids)
    && BatchStored(t, u, ids, RowsOf(c, inputs, now))
    && (forall i :: 0 <= i < |inputs| ==>
          && Recoverable(inputs[i].body) && messages[i] == MessageOf(c, inputs[i], ids[i], now)
          && ids[i] in u.messages && ToMessage(ids[i], u.messages[ids[i]]) == Some(messages[i]))
  }

  ghost predicate AppendDone(
    t: Tables, u: Tables, c: UUID, inputs: seq<AppendInput>, ids: seq<UUID>, now: Time, metadata: Metadata, messages: seq<Message>)
  {
    inputs != [] && OrderAppended(t, u, c, ids, now, metadata) && MessagesAppended(t, u, c, inputs, ids, now, messages)
  }

  ghost predicate AllBefore(inputs: seq<AppendInput>, i: nat) {
    forall j :: 0 <= j < i && j < |inputs| ==> Recoverable(inputs[j].body)
  }

  /** An id is taken or given twice, or positions, the counter or the version are used up. */
  ghost predicate Clashes(t: Tables, c: UUID, ids: seq<UUID>) {
    || !NoDup(ids) || (exists id :: id in ids && id in t.messages)
    || t.nextPosition + |ids| > MAX_INT64 || Version(t, c) >= MAX_INT64 || |Order(t, c)| + |ids| > MAX_INT64
  }

  /** The error of the first input that does not encode, or encodes to columns that do not decode. */
  function FirstBad(inputs: seq<AppendInput>): Option<Error> {
    if inputs == [] then None
    else if !inputs[0].body.Valid() then Some(InvalidBody)
    else if !Recoverable(inputs[0].body) then Some(UnreadableBody)
    else FirstBad(inputs[1..])
  }

  function AppendExpected(inputs: seq<AppendInput>): Option<Error> {
    if inputs == [] then Some(EmptyRequest) else FirstBad(inputs)
  }

  /** What an append during which no statement fails returns: without a clash its inputs alone decide. */
  ghost predicate AppendExact<T>(t: Tables, c: UUID, inputs: seq<AppendInput>, ids: seq<UUID>, r: Result<T>) {
    match AppendExpected(inputs)
    case None => r.Ok? || (r == Err(ConstraintViolation) && Clashes(t, c, ids))
    case Some(e) => r == Err(e) || (r == Err(ConstraintViolation) && Clashes(t, c, ids))
  }

  lemma {:induction false} FirstBadAt(inputs: seq<AppendInput>, i: nat)
    requires i < |inputs| && AllBefore(inputs, i) && !Recoverable(inputs[i].body)
    ensures FirstBad(inputs) == Some(if inputs[i].body.Valid() then UnreadableBody else InvalidBody)
  {
    if i > 0 {
      forall j | 0 <= j < i - 1 ensures Recoverable(inputs[1..][j].body) {
        assert inputs[1..][j] == inputs[j + 1];
      }
      assert Recoverable(inputs[0].body);
      FirstBadAt(inputs[1..], i - 1);
    }
  }

  lemma {:induction false} NoneBad(inputs: seq<AppendInput>)
    requires AllBefore(inputs, |inputs|)
    ensures FirstBad(inputs) == None
  {
    if inputs != [] {
      forall j | 0 <= j < |inputs| - 1 ensures Recoverable(inputs[1..][j].body) {
        assert inputs[1..][j] == inputs[j + 1];
      }
      assert Recoverable(inputs[0].body);
      NoneBad(inputs[1..]);
    }
  }

  /** Done and failed appends are as the inputs say. */
  lemma SuccessIsExact<T>(
    t: Tables, u: Tables, c: UUID, inputs: seq<AppendInput>, ids: seq<UUID>, now: Time, metadata: Metadata, messages: seq<Message>,
    r: Result<T>)
    requires AppendDone(t, u, c, inputs, ids, now, metadata, messages) && r.Ok?
    ensures AppendExact(t, c, inputs, ids, r)
  {
    forall j | 0 <= j < |inputs| ensures Recoverable(inputs[j].body) { }
    NoneBad(inputs);
  }

  lemma FailureIsExact<T>(t: Tables, c: UUID, inputs: seq<AppendInput>, ids: seq<UUID>, r: Result<T>)
    requires r.Err? && r.error != DatabaseFailure && AppendFails(t, c, inputs, ids, r.error)
    ensures AppendExact(t, c, inputs, ids, r)
  {
    match r.error
    case InvalidBody =>
      var i :| 0 <= i < |inputs| && !inputs[i].body.Valid() && AllBefore(inputs, i);
      FirstBadAt(inputs, i);
    case UnreadableBody =>
      var i :| 0 <= i < |inputs| && inputs[i].body.Valid() && !Recoverable(inputs[i].body) && AllBefore(inputs, i);
      FirstBadAt(inputs, i);
    case _ =>
  }

  /** Why an append fails; the first input that does not encode or decode decides. */
  ghost predicate AppendFails(t: Tables, c: UUID, inputs: seq<AppendInput>, ids: seq<UUID>, e: Error) {
    match e
    case EmptyRequest => inputs == []
    case InvalidBody => exists i :: 0 <= i < |inputs| && !inputs[i].body.Valid() && AllBefore(inputs, i)
    case UnreadableBody =>
      exists i :: 0 <= i < |inputs| && inputs[i].body.Valid() && !Recoverable(inputs[i].body) && AllBefore(inputs, i)
    case ConstraintViolation => Clashes(t, c, ids)
    case DatabaseFailure => true
    case _ => false
  }

  /** One message and its item have been inserted. */
  ghost predicate OneAppended(t: Tables, w: Writes, u: Tables, v: Writes, c: UUID, id: UUID, row: MessageRow) {
    && id !in Apply(t, w).messages && t.nextPosition <= MAX_INT64
    && u == t.(nextPosition := t.nextPosition + 1)
    && v == w.(messages := w.messages[id := row], items := w.items[t.nextPosition := Item(c, id)])
  }

  ghost predicate OneFails(t: Tables, w: Writes, c: UUID, input: AppendInput, id: UUID, now: Time, e: Error) {
    match e
    case InvalidBody => !input.body.Valid()
    case UnreadableBody => input.body.Valid() && !Recoverable(input.body)
    case ConstraintViolation => InsertFails(t, w, c, id, RowOf(c, input, now), e)
    case DatabaseFailure => true
    case _ => false
  }

  /** The database refuses the message or its item, or fails. */
  ghost predicate InsertFails(t: Tables, w: Writes, c: UUID, id: UUID, row: MessageRow, e: Error) {
    || e == DatabaseFailure
    || (e == ConstraintViolation &&
        var added := InsertMessage(t, w, id, row);
        added.None? || InsertItem(t, added.value, t.nextPosition, Item(c, id)).None?)
  }

  /** Reading back what was stored for a valid body succeeds exactly if it is recoverable. */
  lemma DecodesOrNot(c: UUID, input: AppendInput, id: UUID, now: Time)
    requires input.body.Valid()
    ensures ToMessage(id, RowOf(c, input, now)) ==
            if Recoverable(input.body) then Some(MessageOf(c, input, id, now)) else None
  {
    ColumnsRoundTrip(input.body);
  }

  lemma OneMore(t: Tables, w: Writes, u: Tables, v: Writes, c: UUID, ids: seq<UUID>, rows: seq<MessageRow>, i: nat)
    requires Consistent(t) && 0 < t.nextPosition && AppendWrites(t, w, c, ids, rows, i, i) && i < |ids| && rows[i].conversation == c
    requires OneAppended(t, w, u, v, c, ids[i], rows[i])
    ensures AppendWrites(u, v, c, ids, rows, i + 1, i + 1)
  {
    MessageInserted(t, w, c, ids, rows, i, i);
    ItemInserted(t, w.(messages := w.messages[ids[i] := rows[i]]), c, ids, rows, i + 1, i);
  }

  /** The statements of one iteration can fail only on an id that is taken or a position out of range. */
  lemma ItemFree(t: Tables, w: Writes, c: UUID, ids: seq<UUID>, rows: seq<MessageRow>, i: nat, id: UUID, row: MessageRow)
    requires ItemsFit(t) && AppendWrites(t, w, c, ids, rows, i, i) && c in Apply(t, w).conversations && row.conversation == c
    requires InsertMessage(t, w, id, row).Some? && t.nextPosition <= MAX_INT64
    ensures InsertItem(t, InsertMessage(t, w, id, row).value, t.nextPosition, Item(c, id)).Some?
  {
    var v := InsertMessage(t, w, id, row).value;
    var items := Apply(t, v).items;
    forall p | p in items ensures items[p].message != id {
      ItemMessageKnown(t, w, c, ids, rows, i, p);
    }
  }

  lemma ItemMessageKnown(t: Tables, w: Writes, c: UUID, ids: seq<UUID>, rows: seq<MessageRow>, i: nat, p: nat)
    requires ItemsFit(t) && AppendWrites(t, w, c, ids, rows, i, i) && p in Apply(t, w).items
    ensures Apply(t, w).items[p].message in Apply(t, w).messages
  {
    if p in w.items {
      OwnMessages(t, w, c, ids[..i], p);
    } else {
      assert ItemFits(t, p);
    }
  }

  lemma TakenID(t: Tables, w: Writes, c: UUID, ids: seq<UUID>, rows: seq<MessageRow>, i: nat)
    requires AppendWrites(t, w, c, ids, rows, i, i) && i < |ids| && ids[i] in Apply(t, w).messages
    ensures !NoDup(ids) || exists id :: id in ids && id in t.messages
  {
    if ids[i] in w.messages {
      assert ids[i] in ids[..i];
    }
  }

  /** What is stored for a recoverable input decodes to the message returned. */
  lemma RowDecodes(c: UUID, input: AppendInput, id: UUID, now: Time)
    requires Recoverable(input.body)
    ensures Stored(RowOf(c, input, now).columns)
    ensures ToMessage(id, RowOf(c, input, now)) == Some(MessageOf(c, input, id, now))
  {
    RecoverableIsStored(input.body);
  }

  lemma BatchReadable(t: Tables, w: Writes, c: UUID, inputs: seq<AppendInput>, ids: seq<UUID>, now: Time)
    requires Readable(t) && |ids| == |inputs| && AppendWrites(t, w, c, ids, RowsOf(c, inputs, now), |ids|, |ids|)
    requires AllBefore(inputs, |inputs|)
    ensures Readable(Apply(t, w))
  {
    assert ids[..|ids|] == ids;
    forall m | m in w.messages ensures Stored(w.messages[m].columns) {
      assert m in Elements(ids);
      var i :| 0 <= i < |ids| && ids[i] == m;
      RowDecodes(c, inputs[i], m, now);
    }
    ReadableApply(t, w);
  }

  lemma BatchReturned(
    t: Tables, u: Tables, c: UUID, inputs: seq<AppendInput>, ids: seq<UUID>, now: Time, messages: seq<Message>)
    requires |messages| == |inputs| && Returned(c, inputs, ids, now, messages) && NoDup(ids)
    requires BatchStored(t, u, ids, RowsOf(c, inputs, now))
    ensures MessagesAppended(t, u, c, inputs, ids, now, messages)
  {
    forall i | 0 <= i < |inputs| ensures ToMessage(ids[i], u.messages[ids[i]]) == Some(messages[i]) {
      RowDecodes(c, inputs[i], ids[i], now);
      assert u.messages[ids[i]] == RowsOf(c, inputs, now)[i];
    }
  }

  /** A refused insertion means an id that is taken or positions used up. */
  lemma WhyRefused(t0: Tables, t: Tables, w: Writes, c: UUID, inputs: seq<AppendInput>, ids: seq<UUID>, i: nat, now: Time)
    requires i < |ids| == |inputs| && ItemsFit(t) && AppendWrites(t, w, c, ids, RowsOf(c, inputs, now), i, i)
    requires RowPending(t, w, c, now) && t == t0.(nextPosition := t0.nextPosition + i)
    requires var added := InsertMessage(t, w, ids[i], RowOf(c, inputs[i], now));
             added.None? || InsertItem(t, added.value, t.nextPosition, Item(c, ids[i])).None?
    ensures AppendFails(t0, c, inputs, ids, ConstraintViolation)
  {
    if InsertMessage(t, w, ids[i], RowOf(c, inputs[i], now)).None? {
      TakenID(t, w, c, ids, RowsOf(c, inputs, now), i);
    } else if t.nextPosition <= MAX_INT64 {
      ItemFree(t, w, c, ids, RowsOf(c, inputs, now), i, ids[i], RowOf(c, inputs[i], now));
    }
  }

  /** Every message so far is recoverable and has been returned as it is stored. */
  ghost predicate Returned(c: UUID, inputs: seq<AppendInput>, ids: seq<UUID>, now: Time, messages: seq<Message>) {
    && |messages| <= |inputs| == |ids| && AllBefore(inputs, |messages|)
    && forall j :: 0 <= j < |messages| ==> messages[j] == MessageOf(c, inputs[j], ids[j], now)
  }

  /** `i` positions drawn since `t0`, all own items at those, the conversation row still to be counted. */
  ghost predicate Drawn(t0: Tables, t: Tables, w: Writes, c: UUID, now: Time, i: nat) {
    && t == t0.(nextPosition := t0.nextPosition + i)
    && RowPending(t, w, c, now)
    && forall p :: p in w.items ==> t0.nextPosition <= p
  }

  /** After `i` iterations of an append that began on `t0` with the conversation row ensured. */
  ghost predicate AppendProgress(
    t0: Tables, t: Tables, w: Writes, c: UUID, inputs: seq<AppendInput>, ids: seq<UUID>, now: Time, i: nat, messages: seq<Message>)
  {
    && i == |messages| && Returned(c, inputs, ids, now, messages)
    && Drawn(t0, t, w, c, now, i) && AppendWrites(t, w, c, ids, RowsOf(c, inputs, now), i, i)
  }

  lemma AppendBegins(t: Tables, w: Writes, c: UUID, inputs: seq<AppendInput>, ids: seq<UUID>, now: Time)
    requires |ids| == |inputs| && w == InsertConversation(t, NO_WRITES, c, now)
    ensures AppendProgress(t, t, w, c, inputs, ids, now, 0, [])
  {
    PlusEmpty(t.conversations);
    NoOwnItems(t, w, c);
    assert ids[..0] == [];
  }

  lemma DrawnOneMore(t0: Tables, t: Tables, w: Writes, u: Tables, v: Writes, c: UUID, now: Time, i: nat, id: UUID, row: MessageRow)
    requires Drawn(t0, t, w, c, now, i) && OneAppended(t, w, u, v, c, id, row)
    ensures Drawn(t0, u, v, c, now, i + 1)
  {
  }

  lemma ReturnedOneMore(c: UUID, inputs: seq<AppendInput>, ids: seq<UUID>, now: Time, messages: seq<Message>)
    requires Returned(c, inputs, ids, now, messages) && |messages| < |inputs| && Recoverable(inputs[|messages|].body)
    ensures Returned(c, inputs, ids, now, messages + [MessageOf(c, inputs[|messages|], ids[|messages|], now)])
  {
  }

  lemma AppendContinues(
    t0: Tables, t: Tables, w: Writes, u: Tables, v: Writes, c: UUID, inputs: seq<AppendInput>, ids: seq<UUID>, now: Time, i: nat,
    messages: seq<Message>)
    requires Consistent(t0) && 0 < t0.nextPosition && i < |inputs|
    requires AppendProgress(t0, t, w, c, inputs, ids, now, i, messages)
    requires OneAppended(t, w, u, v, c, ids[i], RowOf(c, inputs[i], now)) && Recoverable(inputs[i].body)
    ensures AppendProgress(t0, u, v, c, inputs, ids, now, i + 1, messages + [MessageOf(c, inputs[i], ids[i], now)])
  {
    DrawingKeepsConsistent(t0, t.nextPosition);
    OneMore(t, w, u, v, c, ids, RowsOf(c, inputs, now), i);
    DrawnOneMore(t0, t, w, u, v, c, now, i, ids[i], RowOf(c, inputs[i], now));
    ReturnedOneMore(c, inputs, ids, now, messages);
  }

  /** Which failure of an iteration is which failure of the append. */
  lemma AppendStops(
    t0: Tables, t: Tables, w: Writes, c: UUID, inputs: seq<AppendInput>, ids: seq<UUID>, now: Time, i: nat, messages: seq<Message>,
    e: Error)
    requires Consistent(t0) && i < |inputs| && AppendProgress(t0, t, w, c, inputs, ids, now, i, messages)
    requires OneFails(t, w, c, inputs[i], ids[i], now, e)
    ensures AppendFails(t0, c, inputs, ids, e)
  {
    if e == ConstraintViolation {
      DrawingKeepsConsistent(t0, t.nextPosition);
      WhyRefused(t0, t, w, c, inputs, ids, i, now);
    }
  }

  lemma RecoverableIsStored(b: MessageBody)
    requires Recoverable(b)
    ensures Encode(b).Some? && Stored(Encode(b).value) && Decode(Encode(b).value) == Some(b.Normal())
  {
    ColumnsRoundTrip(b);
    DecodeCheckStores(b, Encode(b).value);
  }

  lemma RefusedCount(t: Tables, w: Writes, c: UUID, n: nat, now: Time)
    requires AddCount(t, w, c, n, now).None?
    ensures var rows := Apply(t, w).conversations;
            c in rows ==> rows[c].messageCount + n > MAX_INT64 || rows[c].version >= MAX_INT64
  {
  }

  lemma CountRefused(
    t0: Tables, t: Tables, w: Writes, c: UUID, inputs: seq<AppendInput>, ids: seq<UUID>, now: Time)
    requires Consistent(t0) && Quiet(t0, t) && RowPending(t, w, c, now) && |ids| == |inputs|
    requires AddCount(t, w, c, |inputs|, now).None?
    ensures AppendFails(t0, c, inputs, ids, ConstraintViolation)
  {
    DrawingKeepsConsistent(t0, t.nextPosition);
    DrawingKeepsOrder(t0, t.nextPosition, c);
    OrderSound(t, c);
    PendingRow(t, w, c, now);
    RefusedCount(t, w, c, |inputs|, now);
  }

  lemma AppendLast(t0: Tables, t: Tables, w: Writes, c: UUID, ids: seq<UUID>, rows: seq<MessageRow>)
    requires ItemsFit(t0) && Quiet(t0, t) && AppendWrites(t, w, c, ids, rows, |ids|, |ids|)
    requires forall p :: p in w.items ==> t0.nextPosition <= p
    ensures Order(Apply(t, w), c) == Order(t, c) + ids
  {
    forall p | p in t.items ensures p < t0.nextPosition { assert ItemFits(t0, p); }
    CommitAppendLast(t, w, c, ids, rows, t0.nextPosition);
  }

  lemma CountKeepsAppend(t: Tables, w: Writes, v: Writes, c: UUID, ids: seq<UUID>, rows: seq<MessageRow>)
    requires AppendWrites(t, w, c, ids, rows, |ids|, |ids|) && v == w.(conversations := v.conversations)
    ensures AppendWrites(t, v, c, ids, rows, |ids|, |ids|)
  {
  }

  /** The order after committing: old order, then the batch. */
  lemma AppendCommits(
    t: Tables, w: Writes, v: Writes, c: UUID, ids: seq<UUID>, rows: seq<MessageRow>, now: Time)
    requires Consistent(t) && AppendWrites(t, w, c, ids, rows, |ids|, |ids|) && RowPending(t, w, c, now)
    requires AddCount(t, w, c, |ids|, now) == Some(v)
    ensures var u := Apply(t, v);
            && Consistent(u) && OthersKept(t, u, c) && u.snapshots == t.snapshots
            && v == w.(conversations := v.conversations) && c in v.conversations
            && v.conversations[c] == ConversationRow(|Order(t, c)| + |ids|, Version(t, c) + 1, now)
  {
    RelativeCount(t, w, c, |ids|, now, v);
    CountKeepsAppend(t, w, v, c, ids, rows);
    CommitAppend(t, v, c, ids, rows);
  }

  lemma AppendMessagesDone(
    t0: Tables, t: Tables, w: Writes, v: Writes, c: UUID, inputs: seq<AppendInput>, ids: seq<UUID>, now: Time, messages: seq<Message>)
    requires Readable(t0) && AppendProgress(t0, t, w, c, inputs, ids, now, |inputs|, messages)
    requires v == w.(conversations := v.conversations)
    ensures Readable(Apply(t, v)) && MessagesAppended(t0, Apply(t, v), c, inputs, ids, now, messages)
  {
    var rows := RowsOf(c, inputs, now);
    assert ids[..|ids|] == ids;
    CountKeepsAppend(t, w, v, c, ids, rows);
    AppendBatchStored(t, v, c, ids, rows);
    BatchReadable(t, v, c, inputs, ids, now);
    BatchReturned(t0, Apply(t, v), c, inputs, ids, now, messages);
  }

  lemma OrderAppendedFrom(t0: Tables, t: Tables, u: Tables, c: UUID, ids: seq<UUID>, row: ConversationRow, now: Time)
    requires Quiet(t0, t) && OthersKept(t, u, c) && u.snapshots == t.snapshots
    requires Order(t, c) == Order(t0, c) && Order(u, c) == Order(t, c) + ids
    requires c in u.conversations && u.conversations[c] == row == ConversationRow(|Order(t, c)| + |ids|, Version(t, c) + 1, now)
    ensures OrderAppended(t0, u, c, ids, now, MetadataOf(c, row))
  {
    assert t == t0.(nextPosition := u.nextPosition);
  }

  lemma AppendOrderDone(t0: Tables, t: Tables, w: Writes, v: Writes, c: UUID, ids: seq<UUID>, rows: seq<MessageRow>, now: Time)
    requires Consistent(t0) && Quiet(t0, t) && 0 < t.nextPosition
    requires AppendWrites(t, w, c, ids, rows, |ids|, |ids|) && RowPending(t, w, c, now)
    requires forall p :: p in w.items ==> t0.nextPosition <= p
    requires AddCount(t, w, c, |ids|, now) == Some(v)
    ensures Consistent(Apply(t, v)) && c in v.conversations && v == w.(conversations := v.conversations)
    ensures OrderAppended(t0, Apply(t, v), c, ids, now, MetadataOf(c, v.conversations[c]))
  {
    DrawingKeepsConsistent(t0, t.nextPosition);
    DrawingKeepsOrder(t0, t.nextPosition, c);
    AppendCommits(t, w, v, c, ids, rows, now);
    AppendLast(t0, t, v, c, ids, rows);
    OrderAppendedFrom(t0, t, Apply(t, v), c, ids, v.conversations[c], now);
  }

  /** A committed append is done. */
  lemma AppendSucceeds(
    t0: Tables, t: Tables, w: Writes, v: Writes, c: UUID, inputs: seq<AppendInput>, ids: seq<UUID>, now: Time, messages: seq<Message>)
    requires Healthy(t0) && inputs != [] && AppendProgress(t0, t, w, c, inputs, ids, now, |inputs|, messages)
    requires AddCount(t, w, c, |inputs|, now) == Some(v)
    ensures Healthy(Apply(t, v)) && c in v.conversations
    ensures AppendDone(t0, Apply(t, v), c, inputs, ids, now, MetadataOf(c, v.conversations[c]), messages)
  {
    AppendOrderDone(t0, t, w, v, c, ids, RowsOf(c, inputs, now), now);
    AppendMessagesDone(t0, t, w, v, c, inputs, ids, now, messages);
  }
}
