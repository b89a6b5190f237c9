/**
 * The store's operations as the code runs them: one transaction each, statement by statement, commit
 * or rollback (internal/state/store.go, append.go, range_ops.go, snapshot.go, list.go).
 */
module Store {
  import opened AppendOutcome
  import opened Base
  import opened Body
  import opened Columns
  import opened Database
  import opened Effects
  import opened Listings
  import opened Outcomes
  import PageToken
  import opened Paging
  import opened RangeOps
  import opened RangeOutcome
  import Rows
  import opened SnapshotOutcome
  import opened Tables

  class Store {
    const pool: Pool

    constructor (pool: Pool)
      ensures this.pool == pool
    {
      this.pool := pool;
    }

    ghost predicate Valid()
      reads pool
    {
      Healthy(pool.tables)
    }

    /** The end of a transaction: rolled back after an error, committed otherwise, and the commit may fail. */
    method EndTx(tx: Tx, failed: Option<Error>) returns (e: Option<Error>)
      requires tx.pool == pool
      modifies pool
      ensures pool.failures == old(pool.failures) + if failed.Some? then 0 else BrokeOn(e)
      ensures failed.Some? ==> e == failed
      ensures failed.None? && e.Some? ==> e.value == DatabaseFailure
      ensures pool.tables == if e.None? then Apply(old(pool.tables), tx.writes) else old(pool.tables)
    {
      if failed.Some? {
        return failed;
      }
      e := tx.Commit();
    }

    // -------------------------------------------------------------- append

    /** Inserts the message and then its item. */
    method InsertRow(tx: Tx, c: UUID, id: UUID, row: MessageRow) returns (e: Option<Error>)
      requires tx.pool == pool
      modifies pool, tx
      ensures pool.failures == old(pool.failures) + BrokeOn(e)
      ensures Quiet(old(pool.tables), pool.tables)
      ensures e.None? ==> OneAppended(old(pool.tables), old(tx.writes), pool.tables, tx.writes, c, id, row)
      ensures e.Some? ==> InsertFails(old(pool.tables), old(tx.writes), c, id, row, e.value)
    {
      e := tx.AddMessage(id, row);
      if e.None? {
        e := tx.AddItem(Item(c, id));
      }
    }

    /** One iteration: encode, insert the message, insert the item, decode what was stored. */
    method AppendOne(tx: Tx, c: UUID, input: AppendInput, id: UUID, now: Time) returns (r: Result<Message>)
      requires tx.pool == pool
      modifies pool, tx
      ensures pool.failures == old(pool.failures) + Broke(r)
      ensures Quiet(old(pool.tables), pool.tables)
      ensures r.Ok? ==> Recoverable(input.body) && r.value == MessageOf(c, input, id, now)
      ensures r.Ok? ==>
                OneAppended(old(pool.tables), old(tx.writes), pool.tables, tx.writes, c, id, RowOf(c, input, now))
      ensures r.Err? ==> OneFails(old(pool.tables), old(tx.writes), c, input, id, now, r.error)
    {
      var cols := EncodeMessageBody(input.body);
      if cols.None? {
        return Err(InvalidBody);
      }
      var row := MessageRow(c, input.role, input.kind, cols.value, now);
      var e := InsertRow(tx, c, id, row);
      if e.Some? {
        return Err(e.value);
      }
      DecodesOrNot(c, input, id, now);
      var message := ToMessage(id, row);
      r := if message.Some? then Ok(message.value) else Err(UnreadableBody);
    }

    method AppendAll(tx: Tx, c: UUID, inputs: seq<AppendInput>, ids: seq<UUID>, now: Time) returns (r: Result<seq<Message>>)
      requires tx.pool == pool && Valid()
      requires AppendProgress(pool.tables, pool.tables, tx.writes, c, inputs, ids, now, 0, [])
      modifies pool, tx
      ensures pool.failures == old(pool.failures) + Broke(r)
      ensures Quiet(old(pool.tables), pool.tables)
      ensures r.Ok? ==> AppendProgress(old(pool.tables), pool.tables, tx.writes, c, inputs, ids, now, |inputs|, r.value)
      ensures r.Err? ==> AppendFails(old(pool.tables), c, inputs, ids, r.error)
    {
      ghost var t := pool.tables;
      var messages: seq<Message> := [];
      for i := 0 to |inputs|
        invariant pool.failures == old(pool.failures)
        invariant AppendProgress(t, pool.tables, tx.writes, c, inputs, ids, now, i, messages)
      {
        ghost var t0, w0 := pool.tables, tx.writes;
        var message := AppendOne(tx, c, inputs[i], ids[i], now);
        if message.Err? {
          AppendStops(t, t0, w0, c, inputs, ids, now, i, messages, message.error);
          return Err(message.error);
        }
        AppendContinues(t, t0, w0, pool.tables, tx.writes, c, inputs, ids, now, i, messages);
        messages := messages + [message.value];
      }
      r := Ok(messages);
    }

    method AppendInTx(tx: Tx, c: UUID, inputs: seq<AppendInput>, ids: seq<UUID>, now: Time)
      returns (r: Result<(Metadata, seq<Message>)>)
      requires tx.pool == pool && tx.writes == NO_WRITES && Valid() && inputs != [] && |ids| == |inputs|
      modifies pool, tx
      ensures pool.failures == old(pool.failures) + Broke(r)
      ensures Quiet(old(pool.tables), pool.tables)
      ensures r.Ok? ==>
                var u := Apply(pool.tables, tx.writes);
                Healthy(u) && AppendDone(old(pool.tables), u, c, inputs, ids, now, r.value.0, r.value.1)
      ensures r.Err? ==> AppendFails(old(pool.tables), c, inputs, ids, r.error)
    {
      ghost var t := pool.tables;
      var e := tx.EnsureConversation(c, now);
      if e.Some? {
        return Err(e.value);
      }
      AppendBegins(t, tx.writes, c, inputs, ids, now);
      var messages := AppendAll(tx, c, inputs, ids, now);
      if messages.Err? {
        return Err(messages.error);
      }
      ghost var t1, w1 := pool.tables, tx.writes;
      var row := tx.AddToCount(c, |inputs|, now);
      if row.Err? {
        if row.error == ConstraintViolation {
          CountRefused(t, t1, w1, c, inputs, ids, now);
        }
        return Err(row.error);
      }
      AppendSucceeds(t, t1, w1, tx.writes, c, inputs, ids, now, messages.value);
      r := Ok((MetadataOf(c, row.value), messages.value));
    }

    /** One transaction: everything the append promises but the commit's own failure. */
    method AppendTx(c: UUID, inputs: seq<AppendInput>, ids: seq<UUID>, now: Time)
      returns (r: Result<(Metadata, seq<Message>)>)
      requires Valid() && inputs != [] && |ids| == |inputs|
      modifies pool
      ensures pool.failures == old(pool.failures) + Broke(r)
      ensures Valid()
      ensures r.Ok? ==> AppendDone(old(pool.tables), pool.tables, c, inputs, ids, now, r.value.0, r.value.1)
      ensures r.Err? ==> Quiet(old(pool.tables), pool.tables) && AppendFails(old(pool.tables), c, inputs, ids, r.error)
    {
      ghost var t := pool.tables;
      var tx := new Tx(pool);
      r := AppendInTx(tx, c, inputs, ids, now);
      ghost var t1, u := pool.tables, Apply(pool.tables, tx.writes);
      QuietHealthy(t, t1);
      var e := EndTx(tx, if r.Ok? then None else Some(r.error));
      assert pool.tables == if e.None? then u else t1;
      if e.Some? {
        return Err(e.value);
      }
    }

    /** `ids` are the identifiers uuid.New yields, one for each input. */
    method AppendConversationMessages(c: UUID, inputs: seq<AppendInput>, ids: seq<UUID>, now: Time)
      returns (r: Result<(Metadata, seq<Message>)>)
      requires Valid() && |ids| == |inputs|
      modifies pool
      ensures pool.failures == old(pool.failures) + Broke(r)
      ensures Valid()
      ensures r.Ok? ==> AppendDone(old(pool.tables), pool.tables, c, inputs, ids, now, r.value.0, r.value.1)
      ensures r.Err? ==> Quiet(old(pool.tables), pool.tables) && AppendFails(old(pool.tables), c, inputs, ids, r.error)
      ensures pool.failures == old(pool.failures) ==> AppendExact(old(pool.tables), c, inputs, ids, r)
    {
      if inputs == [] {
        return Err(EmptyRequest);
      }
      ghost var t := pool.tables;
      r := AppendTx(c, inputs, ids, now);
      if r.Ok? {
        SuccessIsExact(t, pool.tables, c, inputs, ids, now, r.value.0, r.value.1, r);
      } else if r.error != DatabaseFailure {
        FailureIsExact(t, c, inputs, ids, r);
      }
    }

    // -------------------------------------------------------------- replace and delete

    method FetchOrder(tx: Tx, c: UUID) returns (r: Result<seq<UUID>>)
      requires tx.pool == pool
      modifies pool`failures
      ensures pool.failures == old(pool.failures) + Broke(r)
      ensures r.Ok? ==> r.value == Order(tx.View(), c)
      ensures r.Err? ==> r.error == DatabaseFailure
    {
      var rows := tx.SelectItems(c);
      if rows.Err? {
        return Err(rows.error);
      }
      var ids: seq<UUID> := [];
      for i := 0 to |rows.value|
        invariant ids == Rows.Values(rows.value)[..i]
      {
        ids := ids + [rows.value[i].value];
      }
      r := Ok(ids);
    }

    /** One insert of the rewrite. */
    method InsertNext(tx: Tx, c: UUID, order: seq<UUID>, i: nat, ghost t: Tables) returns (e: Option<Error>)
      requires tx.pool == pool && i < |order| && Insertable(t, c, order)
      requires RewriteProgress(t, pool.tables, tx.writes, c, order, i)
      modifies pool, tx
      ensures pool.failures == old(pool.failures) + BrokeOn(e)
      ensures e.None? ==> RewriteProgress(t, pool.tables, tx.writes, c, order, i + 1)
      ensures e.Some? ==> Quiet(t, pool.tables) && RewriteFails(t, order, e.value)
    {
      ghost var t1, w1 := pool.tables, tx.writes;
      e := tx.AddItem(Item(c, order[i]));
      if e.Some? {
        RewriteStops(t, t1, w1, c, order, i, e.value);
      } else {
        RewriteContinues(t, t1, w1, tx.writes, c, order, i);
      }
    }

    method InsertItems(tx: Tx, c: UUID, order: seq<UUID>) returns (e: Option<Error>)
      requires tx.pool == pool && Insertable(pool.tables, c, order)
      requires RewriteProgress(pool.tables, pool.tables, tx.writes, c, order, 0)
      modifies pool, tx
      ensures pool.failures == old(pool.failures) + BrokeOn(e)
      ensures e.None? ==> RewriteProgress(old(pool.tables), pool.tables, tx.writes, c, order, |order|)
      ensures e.Some? ==> Quiet(old(pool.tables), pool.tables) && RewriteFails(old(pool.tables), order, e.value)
    {
      for i := 0 to |order|
        invariant pool.failures == old(pool.failures)
        invariant RewriteProgress(old(pool.tables), pool.tables, tx.writes, c, order, i)
      {
        e := InsertNext(tx, c, order, i, old(pool.tables));
        if e.Some? {
          return;
        }
      }
      e := None;
    }

    /** Clears the items of the conversation and inserts the given order, one row after the other. */
    method RewriteOrder(tx: Tx, c: UUID, order: seq<UUID>) returns (e: Option<Error>)
      requires tx.pool == pool && tx.writes == NO_WRITES && c in pool.tables.conversations
      requires Insertable(pool.tables, c, order)
      modifies pool, tx
      ensures pool.failures == old(pool.failures) + BrokeOn(e)
      ensures Quiet(old(pool.tables), pool.tables)
      ensures e.None? ==> RewriteProgress(old(pool.tables), pool.tables, tx.writes, c, order, |order|)
      ensures e.Some? ==>
                RewriteFails(old(pool.tables), order, e.value)
    {
      e := tx.DeleteItems(c);
      if e.None? {
        RewriteBegins(pool.tables, c, order);
        e := InsertItems(tx, c, order);
      }
    }

    /** Asks the database which of the ids are stored for the conversation; all must be. */
    method EnsureStored(tx: Tx, c: UUID, ids: seq<UUID>) returns (e: Option<Error>)
      requires tx.pool == pool
      modifies pool`failures
      ensures pool.failures == old(pool.failures) + BrokeOn(e)
      ensures e != Some(DatabaseFailure) ==>
                e == if Elements(ids) <= StoredIDs(tx.View(), c) then None else Some(MessageNotFound)
    {
      var stored := tx.SelectStored(c);
      if stored.Err? {
        return Some(stored.error);
      }
      var known := EnsureMessagesExist(stored.value, ids);
      e := if known then None else Some(MessageNotFound);
    }

    /** The new order, and the ids that leave it, or the error the code reports first. */
    method PlanReplacement(tx: Tx, c: UUID, spec: ReplaceSpec, order: seq<UUID>) returns (r: Result<Replacement>)
      requires tx.pool == pool
      modifies pool`failures
      ensures pool.failures == old(pool.failures) + Broke(r)
      ensures r != Err(DatabaseFailure) ==> r == ReplaceOutcome(order, StoredIDs(tx.View(), c), spec)
    {
      var cut, working, replaced := CutRange(order, spec);
      if cut.Err? {
        return Err(cut.error);
      }
      if spec.insertIDs != [] {
        var e := EnsureStored(tx, c, spec.insertIDs);
        if e.Some? {
          return Err(e.value);
        }
        var insertPos := cut.value;
        assert insertPos <= working.len;
        if insertPos > working.len {
          insertPos := working.len;
        }
        working := InsertAt(working, insertPos, spec.insertIDs);
      }
      var target := working.buf[working.off..working.off + working.len];
      ghost var (lo, hi) := ReplaceBounds(order, spec).value;
      assert target == order[..lo] + spec.insertIDs + order[hi..];
      var unique := EnsureUnique(target);
      r := if unique then Ok(Replacement(target, replaced)) else Err(DuplicateMessage);
    }

    /** Locks the conversation, reads its order and plans. */
    method LoadReplacement(tx: Tx, c: UUID, spec: ReplaceSpec) returns (r: Result<Replacement>)
      requires tx.pool == pool && tx.writes == NO_WRITES && (spec.fromID.Some? || spec.toID.Some?)
      modifies pool`failures
      ensures pool.failures == old(pool.failures) + Broke(r)
      ensures r != Err(DatabaseFailure) ==> r == ReplaceExpected(pool.tables, c, spec)
    {
      NothingWritten(pool.tables);
      var row := tx.LoadConversation(c);
      if row.Err? {
        return Err(row.error);
      }
      var order := FetchOrder(tx, c);
      if order.Err? {
        return Err(order.error);
      }
      r := PlanReplacement(tx, c, spec, order.value);
    }

    /** Rewrites the order and stores its count. */
    method WriteReplacement(tx: Tx, c: UUID, target: seq<UUID>, now: Time) returns (r: Result<ConversationRow>)
      requires tx.pool == pool && tx.writes == NO_WRITES && Valid() && c in pool.tables.conversations
      requires Targets(pool.tables, c, target, {})
      modifies pool, tx
      ensures pool.failures == old(pool.failures) + Broke(r)
      ensures Quiet(old(pool.tables), pool.tables)
      ensures r.Ok? ==> Written(old(pool.tables), pool.tables, tx.writes, c, target, {}, now)
      ensures r.Ok? ==> c in tx.writes.conversations && r.value == tx.writes.conversations[c]
      ensures r.Err? ==> WriteFails(old(pool.tables), c, target, r.error)
    {
      ghost var t := pool.tables;
      var e := RewriteOrder(tx, c, target);
      if e.Some? {
        return Err(e.value);
      }
      ghost var t1, w1 := pool.tables, tx.writes;
      r := tx.StoreCount(c, |target|, now);
      if r == Err(ConstraintViolation) {
        AbsoluteRefused(t1, w1, c, |target|, now);
      }
    }

    method ReplaceInTx(tx: Tx, c: UUID, spec: ReplaceSpec, now: Time) returns (r: Result<Replaced>)
      requires tx.pool == pool && tx.writes == NO_WRITES && Valid() && (spec.fromID.Some? || spec.toID.Some?)
      modifies pool, tx
      ensures pool.failures == old(pool.failures) + Broke(r)
      ensures Quiet(old(pool.tables), pool.tables)
      ensures r.Ok? ==> ReplaceWritten(old(pool.tables), pool.tables, tx.writes, c, spec, now, r.value)
      ensures r.Err? ==> ReplaceFails(old(pool.tables), c, spec, r.error)
    {
      var plan := LoadReplacement(tx, c, spec);
      if plan.Err? {
        return Err(plan.error);
      }
      ReplaceTargets(pool.tables, c, spec);
      var row := WriteReplacement(tx, c, plan.value.order, now);
      if row.Err? {
        return Err(row.error);
      }
      r := Ok(Replaced(MetadataOf(c, row.value), plan.value.replaced, spec.insertIDs));
    }

    /** One transaction: the writes `v` on tables `t` are committed, or nothing is. */
    method ReplaceTx(c: UUID, spec: ReplaceSpec, now: Time)
      returns (r: Result<Replaced>, ghost t: Tables, ghost v: Writes)
      requires Valid() && (spec.fromID.Some? || spec.toID.Some?)
      modifies pool
      ensures pool.failures == old(pool.failures) + Broke(r)
      ensures r.Ok? ==> ReplaceWritten(old(pool.tables), t, v, c, spec, now, r.value) && pool.tables == Apply(t, v)
      ensures r.Err? ==> Quiet(old(pool.tables), pool.tables) && ReplaceFails(old(pool.tables), c, spec, r.error)
    {
      var tx := new Tx(pool);
      r := ReplaceInTx(tx, c, spec, now);
      t, v := pool.tables, tx.writes;
      var e := EndTx(tx, if r.Ok? then None else Some(r.error));
      if e.Some? {
        r := Err(e.value);
      }
    }

    method ReplaceConversationMessagesRange(c: UUID, spec: ReplaceSpec, now: Time) returns (r: Result<Replaced>)
      requires Valid()
      modifies pool
      ensures pool.failures == old(pool.failures) + Broke(r)
      ensures Valid()
      ensures r.Ok? ==> ReplaceDone(old(pool.tables), pool.tables, c, spec, now, r.value)
      ensures r.Err? ==> Quiet(old(pool.tables), pool.tables) && ReplaceFails(old(pool.tables), c, spec, r.error)
      ensures pool.failures == old(pool.failures) ==> ReplaceExact(old(pool.tables), c, spec, r)
    {
      if spec.fromID.None? && spec.toID.None? {
        return Err(InvalidRangeSpec);
      }
      ghost var t0, t, v := pool.tables, pool.tables, NO_WRITES;
      r, t, v := ReplaceTx(c, spec, now);
      if r.Ok? {
        ReplaceSucceeds(t0, t, v, c, spec, now, r.value);
      } else {
        QuietHealthy(t0, pool.tables);
      }
    }

    method LoadDeletion(tx: Tx, c: UUID, spec: DeleteSpec) returns (r: Result<Deletion>)
      requires tx.pool == pool && tx.writes == NO_WRITES && (spec.fromID.Some? || spec.toID.Some?)
      modifies pool`failures
      ensures pool.failures == old(pool.failures) + Broke(r)
      ensures r != Err(DatabaseFailure) ==> r == DeleteExpected(pool.tables, c, spec)
    {
      NothingWritten(pool.tables);
      var row := tx.LoadConversation(c);
      if row.Err? {
        return Err(row.error);
      }
      var order := FetchOrder(tx, c);
      if order.Err? {
        return Err(order.error);
      }
      r := PlanDeletion(order.value, spec);
    }

    /** Rewrites the order, deletes the messages of the range and stores the count. */
    method WriteDeletion(tx: Tx, c: UUID, spec: DeleteSpec, plan: Deletion, now: Time) returns (r: Result<ConversationRow>)
      requires tx.pool == pool && tx.writes == NO_WRITES && Valid() && c in pool.tables.conversations
      requires DeleteOutcome(Order(pool.tables, c), spec) == Ok(plan)
      modifies pool, tx
      ensures pool.failures == old(pool.failures) + Broke(r)
      ensures Quiet(old(pool.tables), pool.tables)
      ensures r.Ok? ==>
                Written(old(pool.tables), pool.tables, tx.writes, c, plan.remaining, Elements(plan.deleted), now)
      ensures r.Ok? ==> c in tx.writes.conversations && r.value == tx.writes.conversations[c]
      ensures r.Err? ==> WriteFails(old(pool.tables), c, plan.remaining, r.error)
    {
      ghost var t := pool.tables;
      DeleteTargets(t, c, spec);
      var e := RewriteOrder(tx, c, plan.remaining);
      if e.Some? {
        return Err(e.value);
      }
      DeletionDrops(t, pool.tables, tx.writes, c, spec);
      e := tx.DeleteMessages(c, plan.deleted);
      if e.Some? {
        return Err(e.value);
      }
      ghost var t1, w1 := pool.tables, tx.writes;
      r := tx.StoreCount(c, |plan.remaining|, now);
      if r == Err(ConstraintViolation) {
        AbsoluteRefused(t1, w1, c, |plan.remaining|, now);
      }
    }

    method DeleteInTx(tx: Tx, c: UUID, spec: DeleteSpec, now: Time) returns (r: Result<Deleted>)
      requires tx.pool == pool && tx.writes == NO_WRITES && Valid() && (spec.fromID.Some? || spec.toID.Some?)
      modifies pool, tx
      ensures pool.failures == old(pool.failures) + Broke(r)
      ensures Quiet(old(pool.tables), pool.tables)
      ensures r.Ok? ==> DeleteWritten(old(pool.tables), pool.tables, tx.writes, c, spec, now, r.value)
      ensures r.Err? ==> DeleteFails(old(pool.tables), c, spec, r.error)
    {
      var plan := LoadDeletion(tx, c, spec);
      if plan.Err? {
        return Err(plan.error);
      }
      var row := WriteDeletion(tx, c, spec, plan.value, now);
      if row.Err? {
        return Err(row.error);
      }
      r := Ok(Deleted(MetadataOf(c, row.value), plan.value.deleted));
    }

    /** One transaction: the writes `v` on tables `t` are committed, or nothing is. */
    method DeleteTx(c: UUID, spec: DeleteSpec, now: Time)
      returns (r: Result<Deleted>, ghost t: Tables, ghost v: Writes)
      requires Valid() && (spec.fromID.Some? || spec.toID.Some?)
      modifies pool
      ensures pool.failures == old(pool.failures) + Broke(r)
      ensures r.Ok? ==> DeleteWritten(old(pool.tables), t, v, c, spec, now, r.value) && pool.tables == Apply(t, v)
      ensures r.Err? ==> Quiet(old(pool.tables), pool.tables) && DeleteFails(old(pool.tables), c, spec, r.error)
    {
      var tx := new Tx(pool);
      r := DeleteInTx(tx, c, spec, now);
      t, v := pool.tables, tx.writes;
      var e := EndTx(tx, if r.Ok? then None else Some(r.error));
      if e.Some? {
        r := Err(e.value);
      }
    }

    method DeleteConversationMessagesRange(c: UUID, spec: DeleteSpec, now: Time) returns (r: Result<Deleted>)
      requires Valid()
      modifies pool
      ensures pool.failures == old(pool.failures) + Broke(r)
      ensures Valid()
      ensures r.Ok? ==> DeleteDone(old(pool.tables), pool.tables, c, spec, now, r.value)
      ensures r.Err? ==> Quiet(old(pool.tables), pool.tables) && DeleteFails(old(pool.tables), c, spec, r.error)
      ensures pool.failures == old(pool.failures) ==> DeleteExact(old(pool.tables), c, spec, r)
    {
      if spec.fromID.None? && spec.toID.None? {
        return Err(InvalidRangeSpec);
      }
      ghost var t0, t, v := pool.tables, pool.tables, NO_WRITES;
      r, t, v := DeleteTx(c, spec, now);
      if r.Ok? {
        DeleteSucceeds(t0, t, v, c, spec, now, r.value);
      } else {
        QuietHealthy(t0, pool.tables);
      }
    }

    // -------------------------------------------------------------- snapshots

    method UniqueUUIDs(ids: seq<UUID>) returns (unique: seq<UUID>)
      ensures unique == FirstOccurrences(ids)
    {
      var seen: set<UUID> := {};
      unique := [];
      for i := 0 to |ids|
        invariant seen == Elements(ids[..i]) && unique == FirstOccurrences(ids[..i])
      {
        assert ids[..i + 1][..i] == ids[..i];
        assert ids[..i + 1] == ids[..i] + [ids[i]];
        if ids[i] in seen {
          continue;
        }
        seen := seen + {ids[i]};
        unique := unique + [ids[i]];
      }
      assert ids[..|ids|] == ids;
    }

    /** Decodes a fetched row, serialises the body for hashing and encodes it again. */
    method CopyRow(id: UUID, row: MessageRow) returns (r: Option<SnapshotItem>)
      ensures r == CopyOf(id, row)
    {
      var body := Decode(row.columns);
      if body.None? {
        return None;
      }
      var bytes := MarshalDeterministicJSON(body.value);
      var cols := EncodeMessageBody(body.value);
      if cols.None? {
        return None;
      }
      r := Some(SnapshotItem(id, row.role, row.kind, cols.value, bytes, row.createdAt));
    }

    /** Loads the rows of the requested messages; every one must be there. */
    method FetchAll(tx: Tx, c: UUID, copied: seq<UUID>) returns (r: Result<map<UUID, MessageRow>>)
      requires tx.pool == pool && tx.writes == NO_WRITES
      modifies pool`failures
      ensures pool.failures == old(pool.failures) + Broke(r)
      ensures r.Ok? ==> Found(pool.tables, c, copied, r.value)
      ensures r.Err? ==>
                || r.error == DatabaseFailure
                || (r.error == MessageNotFound && !(Elements(copied) <= StoredIDs(pool.tables, c)))
    {
      NothingWritten(pool.tables);
      var unique := UniqueUUIDs(copied);
      FirstOccurrencesSound(copied);
      r := tx.SelectMessages(c, unique);
      if r.Err? {
        return;
      }
      for i := 0 to |unique|
        invariant forall j :: 0 <= j < i ==> unique[j] in r.value
      {
        if unique[i] !in r.value {
          assert unique[i] in Elements(copied) && unique[i] !in StoredIDs(pool.tables, c);
          return Err(MessageNotFound);
        }
      }
      forall m | m in copied ensures m in r.value {
        assert m in Elements(unique);
      }
    }

    method CopyAll(tx: Tx, c: UUID, id: UUID, now: Time, copied: seq<UUID>, found: map<UUID, MessageRow>)
      returns (e: Option<Error>)
      requires tx.pool == pool && Readable(pool.tables) && Found(pool.tables, c, copied, found)
      requires CopyProgress(tx.writes, c, id, now, copied, found, 0)
      modifies tx, pool`failures
      ensures pool.failures == old(pool.failures) + BrokeOn(e)
      ensures e.None? ==> CopyProgress(tx.writes, c, id, now, copied, found, |copied|)
      ensures e.Some? ==> e.value == DatabaseFailure || (e.value == ConstraintViolation && |copied| > 0x8000_0000)
    {
      for i := 0 to |copied|
        invariant pool.failures == old(pool.failures)
        invariant CopyProgress(tx.writes, c, id, now, copied, found, i)
      {
        ghost var w := tx.writes;
        CopyIsFaithful(copied[i], found[copied[i]]);
        var item := CopyRow(copied[i], found[copied[i]]);
        e := tx.AddSnapshotItem(id, i, item.value);
        if e.Some? {
          return;
        }
        CopyContinues(w, tx.writes, c, id, now, copied, found, i, item.value);
      }
      e := None;
    }

    method SnapshotInTx(tx: Tx, c: UUID, copied: seq<UUID>, id: UUID, now: Time) returns (r: Result<SnapshotInfo>)
      requires tx.pool == pool && tx.writes == NO_WRITES && Valid() && copied != []
      modifies tx, pool`failures
      ensures pool.failures == old(pool.failures) + Broke(r)
      ensures r.Ok? ==> r.value == SnapshotInfo(id, c, now) && SnapshotWritten(pool.tables, tx.writes, c, id, now, copied)
      ensures r.Err? ==> SnapshotFails(pool.tables, c, copied, id, r.error)
    {
      NothingWritten(pool.tables);
      var row := tx.LoadConversation(c);
      if row.Err? {
        return Err(row.error);
      }
      var found := FetchAll(tx, c, copied);
      if found.Err? {
        return Err(found.error);
      }
      var e := tx.AddSnapshot(id, c, now);
      if e.Some? {
        return Err(e.value);
      }
      CopyBegins(tx.writes, c, id, now, copied, found.value);
      e := CopyAll(tx, c, id, now, copied, found.value);
      if e.Some? {
        return Err(e.value);
      }
      r := Ok(SnapshotInfo(id, c, now));
    }

    /** One transaction: its writes `w` are committed, or nothing is. */
    method SnapshotTx(c: UUID, copied: seq<UUID>, id: UUID, now: Time) returns (r: Result<SnapshotInfo>, ghost w: Writes)
      requires Valid() && copied != []
      modifies pool
      ensures pool.failures == old(pool.failures) + Broke(r)
      ensures r.Ok? ==> r.value == SnapshotInfo(id, c, now) && SnapshotWritten(old(pool.tables), w, c, id, now, copied)
      ensures r.Ok? ==> pool.tables == Apply(old(pool.tables), w)
      ensures r.Err? ==> pool.tables == old(pool.tables) && SnapshotFails(old(pool.tables), c, copied, id, r.error)
    {
      ghost var t := pool.tables;
      var tx := new Tx(pool);
      r := SnapshotInTx(tx, c, copied, id, now);
      w := tx.writes;
      assert pool.tables == t;
      var e := EndTx(tx, if r.Ok? then None else Some(r.error));
      if e.Some? {
        r := Err(e.value);
      }
    }

    /** `id` is the identifier uuid.New yields. */
    method CreateSnapshot(c: UUID, copied: seq<UUID>, id: UUID, now: Time) returns (r: Result<SnapshotInfo>)
      requires Valid()
      modifies pool
      ensures pool.failures == old(pool.failures) + Broke(r)
      ensures Valid()
      ensures r.Ok? ==> SnapshotDone(old(pool.tables), pool.tables, c, copied, id, now, r.value)
      ensures r.Err? ==> pool.tables == old(pool.tables) && SnapshotFails(old(pool.tables), c, copied, id, r.error)
      ensures pool.failures == old(pool.failures) ==> SnapshotExact(old(pool.tables), c, copied, id, r)
    {
      if copied == [] {
        return Err(EmptyRequest);
      }
      ghost var t := pool.tables;
      ghost var w;
      r, w := SnapshotTx(c, copied, id, now);
      if r.Ok? {
        SnapshotSucceeds(t, w, c, id, now, copied);
        SnapshotSuccessIsExact(t, pool.tables, c, copied, id, now, r);
      }
    }

    // -------------------------------------------------------------- listings

    /** The metadata and the page come from two statements outside a transaction. */
    method ListConversationMessages(c: UUID, filter: Filter, pageSize: int32, after: Option<int>)
      returns (r: Result<(Metadata, Listing<Message>)>)
      requires Valid()
      modifies pool`failures
      ensures pool.failures == old(pool.failures) + Broke(r)
      ensures r.Ok? ==> c in pool.tables.conversations && r.value.0 == MetadataOf(c, pool.tables.conversations[c])
      ensures r.Ok? ==> MessagePage(pool.tables, c, filter, pageSize, after) == Ok(r.value.1)
      ensures r.Err? ==> r.error == DatabaseFailure || (r.error == ConversationNotFound && c !in pool.tables.conversations)
    {
      var metadata := LoadMetadata(c);
      if metadata.Err? {
        return Err(metadata.error);
      }
      var limit := PageToken.NormalizePageSize(pageSize);
      var rows := QueryPage(Selected(pool.tables, c, filter), after, limit + 1, pool.tables.nextPosition);
      if rows.Err? {
        return Err(rows.error);
      }
      LookAheadSuffices(Selected(pool.tables, c, filter), after, pageSize, pool.tables.nextPosition);
      ListingsNeverFail(pool.tables, c, filter, pageSize, after);
      var page := CollectPage(rows.value, limit, MessageDomain);
      r := WithMetadata(metadata.value, page);
    }

    method ListConversationMessageIDs(c: UUID, pageSize: int32, after: Option<int>)
      returns (r: Result<(Metadata, Listing<UUID>)>)
      requires Valid()
      modifies pool`failures
      ensures pool.failures == old(pool.failures) + Broke(r)
      ensures r.Ok? ==> c in pool.tables.conversations && r.value.0 == MetadataOf(c, pool.tables.conversations[c])
      ensures r.Ok? ==> IDPage(pool.tables, c, pageSize, after) == Ok(r.value.1)
      ensures r.Err? ==> r.error == DatabaseFailure || (r.error == ConversationNotFound && c !in pool.tables.conversations)
    {
      var metadata := LoadMetadata(c);
      if metadata.Err? {
        return Err(metadata.error);
      }
      var limit := PageToken.NormalizePageSize(pageSize);
      var rows := QueryPage(ItemsOf(pool.tables.items, c), after, limit + 1, pool.tables.nextPosition);
      if rows.Err? {
        return Err(rows.error);
      }
      LookAheadSuffices(ItemsOf(pool.tables.items, c), after, pageSize, pool.tables.nextPosition);
      var page := CollectPage(rows.value, limit, Itself);
      r := WithMetadata(metadata.value, page);
    }

    method ListSnapshotMessages(s: UUID, pageSize: int32, after: Option<int>) returns (r: Result<Listing<Message>>)
      requires Valid()
      modifies pool`failures
      ensures pool.failures == old(pool.failures) + Broke(r)
      ensures r == Err(DatabaseFailure) || r == SnapshotPage(pool.tables, s, pageSize, after)
      ensures r == Err(DatabaseFailure) || r == Err(SnapshotNotFound) || r.Ok?
    {
      var row := LoadSnapshot(s);
      if row.Err? {
        return Err(row.error);
      }
      var items, limit := row.value.items, PageToken.NormalizePageSize(pageSize);
      var rows := QueryPage(items, after, limit + 1, |items|);
      if rows.Err? {
        return Err(rows.error);
      }
      LookAheadSuffices(items, after, pageSize, |items|);
      ListingsNeverFail(pool.tables, s, NO_FILTER, pageSize, after);
      r := CollectPage(rows.value, limit, ItemDomain(row.value.conversation));
    }

    method ListSnapshotMessageIDs(s: UUID, pageSize: int32, after: Option<int>) returns (r: Result<Listing<UUID>>)
      requires Valid()
      modifies pool`failures
      ensures pool.failures == old(pool.failures) + Broke(r)
      ensures r == Err(DatabaseFailure) || r == SnapshotIDPage(pool.tables, s, pageSize, after)
      ensures r == Err(DatabaseFailure) || r == Err(SnapshotNotFound) || r.Ok?
    {
      var row := LoadSnapshot(s);
      if row.Err? {
        return Err(row.error);
      }
      var items, limit := row.value.items, PageToken.NormalizePageSize(pageSize);
      var rows := QueryPage(items, after, limit + 1, |items|);
      if rows.Err? {
        return Err(rows.error);
      }
      LookAheadSuffices(items, after, pageSize, |items|);
      ItemIDsConvert(PageOf(items, after, pageSize, |items|));
      r := CollectPage(rows.value, limit, ItemID);
    }

    method LoadMetadata(c: UUID) returns (r: Result<Metadata>)
      modifies pool`failures
      ensures pool.failures == old(pool.failures) + Broke(r)
      ensures r.Ok? ==> c in pool.tables.conversations && r.value == MetadataOf(c, pool.tables.conversations[c])
      ensures r.Err? ==> r.error == DatabaseFailure || (r.error == ConversationNotFound && c !in pool.tables.conversations)
    {
      if * {
        pool.failures := pool.failures + 1;
        return Err(DatabaseFailure);
      }
      r := if c in pool.tables.conversations then Ok(MetadataOf(c, pool.tables.conversations[c])) else Err(ConversationNotFound);
    }

    method LoadSnapshot(s: UUID) returns (r: Result<SnapshotRow>)
      modifies pool`failures
      ensures pool.failures == old(pool.failures) + Broke(r)
      ensures r.Ok? ==> s in pool.tables.snapshots && r.value == pool.tables.snapshots[s]
      ensures r.Err? ==> r.error == DatabaseFailure || (r.error == SnapshotNotFound && s !in pool.tables.snapshots)
    {
      if * {
        pool.failures := pool.failures + 1;
        return Err(DatabaseFailure);
      }
      r := if s in pool.tables.snapshots then Ok(pool.tables.snapshots[s]) else Err(SnapshotNotFound);
    }

    method QueryPage<V>(m: map<nat, V>, after: Option<int>, limit: nat, hi: nat) returns (r: Result<seq<Rows.Row<V>>>)
      modifies pool`failures
      ensures pool.failures == old(pool.failures) + Broke(r)
      ensures r.Ok? ==> r.value == Query(m, after, limit, hi)
      ensures r.Err? ==> r.error == DatabaseFailure
    {
      if * {
        pool.failures := pool.failures + 1;
        return Err(DatabaseFailure);
      }
      r := Ok(Query(m, after, limit, hi));
    }
  }
}
