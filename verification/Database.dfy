/**
 * The connection pool and one open transaction on it. Each method is one SQL statement: its effect on
 * the transaction's private writes, a constraint violation, or a failure of the database at any moment.
 */
module Database {
  import opened Base
  import opened Outcomes
  import Rows
  import opened Tables

  /** One if the database itself reported a failure, nothing otherwise. */
  function Broke<T>(r: Result<T>): nat {
    if r.Err? && r.error == DatabaseFailure then 1 else 0
  }

  function BrokeOn(e: Option<Error>): nat {
    if e == Some(DatabaseFailure) then 1 else 0
  }

  /** The committed tables, and how many statements and commits have failed so far. */
  class Pool {
    var tables: Tables
    var failures: nat

    constructor ()
      ensures Healthy(tables) && tables == EMPTY_DATABASE && failures == 0
    {
      tables := EMPTY_DATABASE;
      failures := 0;
      EmptyHealthy();
    }
  }

  /** Statements see the committed rows with the transaction's own writes on top. */
  class Tx {
    const pool: Pool
    var writes: Writes

    constructor (pool: Pool)
      ensures this.pool == pool && writes == NO_WRITES
    {
      this.pool := pool;
      writes := NO_WRITES;
    }

    ghost function View(): Tables
      reads this`writes, pool`tables
    {
      Apply(pool.tables, writes)
    }

    /** INSERT INTO conversations ... ON CONFLICT DO NOTHING. */
    method EnsureConversation(c: UUID, now: Time) returns (e: Option<Error>)
      modifies this, pool`failures
      ensures pool.failures == old(pool.failures) + BrokeOn(e)
      ensures e.None? ==> writes == InsertConversation(pool.tables, old(writes), c, now)
      ensures e.Some? ==> writes == old(writes) && e.value == DatabaseFailure
    {
      if * {
        pool.failures := pool.failures + 1;
        return Some(DatabaseFailure);
      }
      writes := InsertConversation(pool.tables, writes, c, now);
      e := None;
    }

    method AddMessage(id: UUID, row: MessageRow) returns (e: Option<Error>)
      modifies this, pool`failures
      ensures pool.failures == old(pool.failures) + BrokeOn(e)
      ensures e.None? ==> InsertMessage(pool.tables, old(writes), id, row) == Some(writes)
      ensures e.Some? ==> writes == old(writes)
      ensures e.Some? ==>
                || e.value == DatabaseFailure
                || (e.value == ConstraintViolation && InsertMessage(pool.tables, old(writes), id, row).None?)
    {
      var inserted := InsertMessage(pool.tables, writes, id, row);
      if * {
        pool.failures := pool.failures + 1;
        return Some(DatabaseFailure);
      }
      if inserted.None? {
        return Some(ConstraintViolation);
      }
      writes := inserted.value;
      e := None;
    }

    /** INSERT INTO conversation_items: draws a position, which stays drawn whatever follows. */
    method AddItem(item: Item) returns (e: Option<Error>)
      modifies this, pool
      ensures pool.failures == old(pool.failures) + BrokeOn(e)
      ensures e.None? ==> pool.tables == old(pool.tables).(nextPosition := old(pool.tables).nextPosition + 1)
      ensures e.None? ==>
                InsertItem(old(pool.tables), old(writes), old(pool.tables).nextPosition, item) == Some(writes)
      ensures e.Some? ==> writes == old(writes) && Quiet(old(pool.tables), pool.tables)
      ensures e.Some? ==>
                || e.value == DatabaseFailure
                || (e.value == ConstraintViolation
                    && InsertItem(old(pool.tables), old(writes), old(pool.tables).nextPosition, item).None?)
    {
      if * {
        pool.failures := pool.failures + 1;
        return Some(DatabaseFailure);
      }
      var inserted := InsertItem(pool.tables, writes, pool.tables.nextPosition, item);
      pool.tables := pool.tables.(nextPosition := pool.tables.nextPosition + 1);
      if * {
        pool.failures := pool.failures + 1;
        return Some(DatabaseFailure);
      }
      if inserted.None? {
        return Some(ConstraintViolation);
      }
      writes := inserted.value;
      e := None;
    }

    method AddToCount(c: UUID, n: nat, now: Time) returns (r: Result<ConversationRow>)
      modifies this, pool`failures
      ensures pool.failures == old(pool.failures) + Broke(r)
      ensures r.Ok? ==>
                && AddCount(pool.tables, old(writes), c, n, now) == Some(writes)
                && c in writes.conversations && r.value == writes.conversations[c]
      ensures r.Err? ==> writes == old(writes)
      ensures r.Err? ==>
                || r.error == DatabaseFailure
                || (r.error == ConstraintViolation && AddCount(pool.tables, old(writes), c, n, now).None?)
    {
      var updated := AddCount(pool.tables, writes, c, n, now);
      if * {
        pool.failures := pool.failures + 1;
        return Err(DatabaseFailure);
      }
      if updated.None? {
        return Err(ConstraintViolation);
      }
      writes := updated.value;
      r := Ok(writes.conversations[c]);
    }

    method StoreCount(c: UUID, count: int, now: Time) returns (r: Result<ConversationRow>)
      modifies this, pool`failures
      ensures pool.failures == old(pool.failures) + Broke(r)
      ensures r.Ok? ==>
                && SetCount(pool.tables, old(writes), c, count, now) == Some(writes)
                && c in writes.conversations && r.value == writes.conversations[c]
      ensures r.Err? ==> writes == old(writes)
      ensures r.Err? ==>
                || r.error == DatabaseFailure
                || (r.error == ConstraintViolation && SetCount(pool.tables, old(writes), c, count, now).None?)
    {
      var updated := SetCount(pool.tables, writes, c, count, now);
      if * {
        pool.failures := pool.failures + 1;
        return Err(DatabaseFailure);
      }
      if updated.None? {
        return Err(ConstraintViolation);
      }
      writes := updated.value;
      r := Ok(writes.conversations[c]);
    }

    /** SELECT ... FROM conversations WHERE id = c, with or without FOR UPDATE. */
    method LoadConversation(c: UUID) returns (r: Result<ConversationRow>)
      modifies pool`failures
      ensures pool.failures == old(pool.failures) + Broke(r)
      ensures r.Ok? ==> c in View().conversations && r.value == View().conversations[c]
      ensures r.Err? ==> r.error == DatabaseFailure || (r.error == ConversationNotFound && c !in View().conversations)
    {
      var conversations := Apply(pool.tables, writes).conversations;
      if * {
        pool.failures := pool.failures + 1;
        return Err(DatabaseFailure);
      }
      r := if c in conversations then Ok(conversations[c]) else Err(ConversationNotFound);
    }

    /** SELECT message_id ... ORDER BY position. */
    method SelectItems(c: UUID) returns (r: Result<seq<Rows.Row<UUID>>>)
      modifies pool`failures
      ensures pool.failures == old(pool.failures) + Broke(r)
      ensures r.Ok? ==> r.value == Rows.Between(ItemsOf(View().items, c), 0, pool.tables.nextPosition)
      ensures r.Err? ==> r.error == DatabaseFailure
    {
      if * {
        pool.failures := pool.failures + 1;
        return Err(DatabaseFailure);
      }
      var view := Apply(pool.tables, writes);
      r := Ok(Rows.Between(ItemsOf(view.items, c), 0, view.nextPosition));
    }

    /** The ids of the messages stored for the conversation. */
    method SelectStored(c: UUID) returns (r: Result<set<UUID>>)
      modifies pool`failures
      ensures pool.failures == old(pool.failures) + Broke(r)
      ensures r.Ok? ==> r.value == StoredIDs(View(), c)
      ensures r.Err? ==> r.error == DatabaseFailure
    {
      if * {
        pool.failures := pool.failures + 1;
        return Err(DatabaseFailure);
      }
      r := Ok(StoredIDs(Apply(pool.tables, writes), c));
    }

    method DeleteItems(c: UUID) returns (e: Option<Error>)
      modifies this, pool`failures
      ensures pool.failures == old(pool.failures) + BrokeOn(e)
      ensures e.None? ==> writes == ClearItems(pool.tables, old(writes), c)
      ensures e.Some? ==> writes == old(writes) && e.value == DatabaseFailure
    {
      if * {
        pool.failures := pool.failures + 1;
        return Some(DatabaseFailure);
      }
      writes := ClearItems(pool.tables, writes, c);
      e := None;
    }

    method DeleteMessages(c: UUID, ids: seq<UUID>) returns (e: Option<Error>)
      modifies this, pool`failures
      ensures pool.failures == old(pool.failures) + BrokeOn(e)
      ensures e.None? ==> writes == DropMessages(pool.tables, old(writes), c, ids)
      ensures e.Some? ==> writes == old(writes) && e.value == DatabaseFailure
    {
      if * {
        pool.failures := pool.failures + 1;
        return Some(DatabaseFailure);
      }
      writes := DropMessages(pool.tables, writes, c, ids);
      e := None;
    }

    /** SELECT ... FROM messages WHERE conversation_id = c AND id = ANY(ids). */
    method SelectMessages(c: UUID, ids: seq<UUID>) returns (r: Result<map<UUID, MessageRow>>)
      modifies pool`failures
      ensures pool.failures == old(pool.failures) + Broke(r)
      ensures r.Ok? ==> r.value == map m | m in Condemned(View().messages, c, ids) :: View().messages[m]
      ensures r.Err? ==> r.error == DatabaseFailure
    {
      if * {
        pool.failures := pool.failures + 1;
        return Err(DatabaseFailure);
      }
      var messages := Apply(pool.tables, writes).messages;
      r := Ok(map m | m in Condemned(messages, c, ids) :: messages[m]);
    }

    method AddSnapshot(id: UUID, c: UUID, now: Time) returns (e: Option<Error>)
      modifies this, pool`failures
      ensures pool.failures == old(pool.failures) + BrokeOn(e)
      ensures e.None? ==>
                && id !in old(View()).snapshots && c in View().conversations
                && writes == old(writes).(snapshots := old(writes).snapshots[id := SnapshotRow(c, now, map[])])
      ensures e.Some? ==> writes == old(writes)
      ensures e.Some? ==>
                || e.value == DatabaseFailure
                || (e.value == ConstraintViolation && (id in old(View()).snapshots || c !in View().conversations))
    {
      var view := Apply(pool.tables, writes);
      if * {
        pool.failures := pool.failures + 1;
        return Some(DatabaseFailure);
      }
      if id in view.snapshots || c !in view.conversations {
        return Some(ConstraintViolation);
      }
      writes := writes.(snapshots := writes.snapshots[id := SnapshotRow(c, now, map[])]);
      e := None;
    }

    /** INSERT INTO snapshot_items of a snapshot this transaction has inserted; order_idx is an INTEGER. */
    method AddSnapshotItem(id: UUID, index: nat, item: SnapshotItem) returns (e: Option<Error>)
      requires id in writes.snapshots
      modifies this, pool`failures
      ensures pool.failures == old(pool.failures) + BrokeOn(e)
      ensures e.None? ==>
                var row := old(writes).snapshots[id];
                && index <= 0x7FFF_FFFF && index !in row.items
                && writes == old(writes).(snapshots := old(writes).snapshots[id := row.(items := row.items[index := item])])
      ensures e.Some? ==> writes == old(writes)
      ensures e.Some? ==>
                || e.value == DatabaseFailure
                || (e.value == ConstraintViolation && (index > 0x7FFF_FFFF || index in old(writes).snapshots[id].items))
    {
      var row := writes.snapshots[id];
      if * {
        pool.failures := pool.failures + 1;
        return Some(DatabaseFailure);
      }
      if index > 0x7FFF_FFFF || index in row.items {
        return Some(ConstraintViolation);
      }
      writes := writes.(snapshots := writes.snapshots[id := row.(items := row.items[index := item])]);
      e := None;
    }

    /** Makes the writes visible to everyone, or fails and leaves the committed rows alone. */
    method Commit() returns (e: Option<Error>)
      modifies pool
      ensures pool.failures == old(pool.failures) + BrokeOn(e)
      ensures e.None? ==> pool.tables == Apply(old(pool.tables), writes)
      ensures e.Some? ==> pool.tables == old(pool.tables) && e.value == DatabaseFailure
    {
      if * {
        pool.failures := pool.failures + 1;
        return Some(DatabaseFailure);
      }
      pool.tables := Apply(pool.tables, writes);
      e := None;
    }
  }
}
