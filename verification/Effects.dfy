/**
 * The shapes private writes take while an operation runs, and what committing them does. Both the
 * sequential store and the interleaved machine commit through these lemmas.
 */
module Effects {
  import opened Base
  import opened RangeLaws
  import opened RangeOps
  import opened Tables
  import Rows

  /** The transaction's own items: all of `c`, at positions of their own, in the order of `list`. */
  ghost predicate OwnItems(t: Tables, w: Writes, c: UUID, list: seq<UUID>) {
    && (forall p :: p in w.items ==>
          w.items[p].conversation == c && p !in t.items && 0 < p < t.nextPosition && p <= MAX_INT64)
    && Rows.Ordered(ItemsOf(w.items, c), t.nextPosition) == list
  }

  /** An append that has inserted `m` messages and `k` items. */
  ghost predicate AppendWrites(t: Tables, w: Writes, c: UUID, ids: seq<UUID>, rows: seq<MessageRow>, m: nat, k: nat) {
    && k <= m <= |ids| && |rows| == |ids|
    && w.droppedItems == {} && w.droppedMessages == {} && w.snapshots == map[]
    && NoDup(ids[..m])
    && w.messages.Keys == Elements(ids[..m])
    && (forall i :: 0 <= i < m ==> ids[i] !in t.messages && w.messages[ids[i]] == rows[i]
                                   && rows[i].conversation == c)
    && OwnItems(t, w, c, ids[..k])
  }

  /** A rewrite that has cleared the order of `c` and inserted `k` of the ids of `target`. */
  ghost predicate RewriteWrites(t: Tables, w: Writes, c: UUID, target: seq<UUID>, k: nat, dropped: set<UUID>) {
    && k <= |target| && c in t.conversations
    && w.messages == map[] && w.droppedMessages == dropped && w.snapshots == map[]
    && w.droppedItems == ItemsOf(t.items, c).Keys
    && OwnItems(t, w, c, target[..k])
  }

  /** The counter row written last: the new count and the next version. */
  ghost predicate Counted(t: Tables, w: Writes, c: UUID, count: int) {
    && w.conversations.Keys == {c}
    && w.conversations[c].messageCount == count
    && w.conversations[c].version == Version(t, c) + 1
  }

  /** The conversation row before the counter is written: untouched, or inserted by this transaction. */
  ghost predicate RowPending(t: Tables, w: Writes, c: UUID, now: Time) {
    if c in t.conversations then w.conversations == map[]
    else w.conversations == map[c := ConversationRow(0, 0, now)]
  }

  /** Everything outside conversation `c` is as it was. */
  ghost predicate OthersKept(t: Tables, u: Tables, c: UUID) {
    && u.nextPosition == t.nextPosition
    && (forall d :: d != c ==> ItemsOf(u.items, d) == ItemsOf(t.items, d))
    && (forall d :: d != c && d in t.conversations ==> d in u.conversations && u.conversations[d] == t.conversations[d])
    && (forall d :: d != c && d in u.conversations ==> d in t.conversations)
    && (forall m :: m in t.messages && t.messages[m].conversation != c ==> m in u.messages && u.messages[m] == t.messages[m])
    && (forall m :: m in u.messages && u.messages[m].conversation != c ==> m in t.messages && t.messages[m] == u.messages[m])
  }

  lemma PlusEmpty<K, V>(m: map<K, V>)
    ensures m + map[] == m && m - {} == m
  {
  }

  lemma ItemsOfUnion(items: map<nat, Item>, drop: set<nat>, add: map<nat, Item>, d: UUID)
    requires add.Keys !! items.Keys
    ensures ItemsOf((items - drop) + add, d) == (ItemsOf(items, d) - drop) + ItemsOf(add, d)
  {
  }

  lemma ItemsOfOther(add: map<nat, Item>, c: UUID, d: UUID)
    requires c != d && forall p :: p in add ==> add[p].conversation == c
    ensures ItemsOf(add, d) == map[]
  {
  }

  // ---------------------------------------------------------------- growing the own items

  lemma ItemAdded(t: Tables, w: Writes, c: UUID, list: seq<UUID>, m: UUID)
    requires Consistent(t) && OwnItems(t, w, c, list) && 0 < t.nextPosition <= MAX_INT64
    ensures OwnItems(t.(nextPosition := t.nextPosition + 1),
                     w.(items := w.items[t.nextPosition := Item(c, m)]), c, list + [m])
  {
    var next := t.nextPosition;
    assert next in t.items ==> ItemFits(t, next);
    assert ItemsOf(w.items[next := Item(c, m)], c) == ItemsOf(w.items, c)[next := m];
    Rows.Push(ItemsOf(w.items, c), next, m);
  }

  /** Positions drawn by others leave the own items as they are. */
  lemma OwnItemsGrow(t: Tables, w: Writes, c: UUID, list: seq<UUID>, n: nat)
    requires OwnItems(t, w, c, list) && t.nextPosition <= n
    ensures OwnItems(t.(nextPosition := n), w, c, list)
  {
    Rows.Grow(ItemsOf(w.items, c), t.nextPosition, n);
  }

  /** An id is among the own items exactly when it is in their list. */
  lemma OwnMembers(t: Tables, w: Writes, c: UUID, list: seq<UUID>, m: UUID)
    requires OwnItems(t, w, c, list)
    ensures m in list <==> exists p :: p in w.items && w.items[p] == Item(c, m)
  {
    var own := ItemsOf(w.items, c);
    Rows.OrderedMembers(own, t.nextPosition, m);
    if m in list {
      var p :| p in own && own[p] == m;
      assert w.items[p] == Item(c, m);
    }
    if p :| p in w.items && w.items[p] == Item(c, m) {
      assert p in own && own[p] == m;
    }
  }

  lemma OwnDistinct(t: Tables, w: Writes, c: UUID, list: seq<UUID>, p: nat, q: nat)
    requires OwnItems(t, w, c, list) && NoDup(list)
    requires p in w.items && q in w.items && w.items[p] == w.items[q]
    ensures p == q
  {
    var own := ItemsOf(w.items, c);
    var rows := Rows.Between(own, 0, t.nextPosition);
    Rows.BetweenIsSelection(own, 0, t.nextPosition);
    var i :| 0 <= i < |rows| && rows[i] == Rows.Row(p, own[p]);
    var j :| 0 <= j < |rows| && rows[j] == Rows.Row(q, own[q]);
    assert list[i] == list[j];
    assert i == j;
  }

  lemma NoOwnItems(t: Tables, w: Writes, c: UUID)
    requires w.items == map[]
    ensures OwnItems(t, w, c, [])
  {
    assert ItemsOf(w.items, c) == map[];
    Rows.NoRows(ItemsOf(w.items, c), 0, t.nextPosition);
  }

  lemma OneMoreID(ids: seq<UUID>, m: nat)
    requires m < |ids| && NoDup(ids[..m]) && ids[m] !in ids[..m]
    ensures NoDup(ids[..m + 1]) && Elements(ids[..m + 1]) == Elements(ids[..m]) + {ids[m]}
  {
    assert ids[..m + 1] == ids[..m] + [ids[m]];
    NoDupConcat(ids[..m], [ids[m]]);
    ElementsConcat(ids[..m], [ids[m]]);
  }

  lemma FreeID(t: Tables, w: Writes, c: UUID, ids: seq<UUID>, rows: seq<MessageRow>, m: nat, k: nat)
    requires AppendWrites(t, w, c, ids, rows, m, k) && m < |ids| && ids[m] !in Apply(t, w).messages
    ensures ids[m] !in t.messages && ids[m] !in w.messages && ids[m] !in ids[..m]
  {
    PlusEmpty(t.messages);
    assert ids[m] !in Elements(ids[..m]);
  }

  lemma MessageInserted(t: Tables, w: Writes, c: UUID, ids: seq<UUID>, rows: seq<MessageRow>, m: nat, k: nat)
    requires AppendWrites(t, w, c, ids, rows, m, k) && m < |ids|
    requires ids[m] !in Apply(t, w).messages && rows[m].conversation == c
    ensures AppendWrites(t, w.(messages := w.messages[ids[m] := rows[m]]), c, ids, rows, m + 1, k)
  {
    FreeID(t, w, c, ids, rows, m, k);
    OneMoreID(ids, m);
    forall i | 0 <= i < m ensures ids[i] != ids[m] {
      assert ids[..m][i] == ids[i];
    }
  }

  lemma ItemInserted(t: Tables, w: Writes, c: UUID, ids: seq<UUID>, rows: seq<MessageRow>, m: nat, k: nat)
    requires Consistent(t) && AppendWrites(t, w, c, ids, rows, m, k) && k < m && 0 < t.nextPosition <= MAX_INT64
    ensures AppendWrites(t.(nextPosition := t.nextPosition + 1),
                         w.(items := w.items[t.nextPosition := Item(c, ids[k])]), c, ids, rows, m, k + 1)
  {
    ItemAdded(t, w, c, ids[..k], ids[k]);
    assert ids[..k + 1] == ids[..k] + [ids[k]];
  }

  lemma RewriteInserted(t: Tables, w: Writes, c: UUID, target: seq<UUID>, k: nat, dropped: set<UUID>)
    requires Consistent(t) && RewriteWrites(t, w, c, target, k, dropped) && k < |target| && 0 < t.nextPosition <= MAX_INT64
    ensures RewriteWrites(t.(nextPosition := t.nextPosition + 1),
                          w.(items := w.items[t.nextPosition := Item(c, target[k])]), c, target, k + 1, dropped)
  {
    ItemAdded(t, w, c, target[..k], target[k]);
    assert target[..k + 1] == target[..k] + [target[k]];
  }

  lemma ClearedWrites(t: Tables, c: UUID, target: seq<UUID>)
    requires c in t.conversations
    ensures var w := ClearItems(t, NO_WRITES, c);
            w.conversations == map[] && w.items == map[] && RewriteWrites(t, w, c, target, 0, {})
  {
    var w := ClearItems(t, NO_WRITES, c);
    PlusEmpty(t.items);
    assert w.items == map[] && w.messages == map[];
    NoOwnItems(t, w, c);
    assert target[..0] == [];
  }

  // ---------------------------------------------------------------- committing

  lemma CountersKept(t: Tables, w: Writes, c: UUID)
    requires CountersExact(t) && OthersKept(t, Apply(t, w), c)
    requires w.conversations.Keys == {c} && w.conversations[c].messageCount == |Order(Apply(t, w), c)|
    ensures CountersExact(Apply(t, w))
  {
  }

  lemma SnapshotsKept(t: Tables, w: Writes)
    requires SnapshotsFit(t) && w.snapshots == map[]
    ensures SnapshotsFit(Apply(t, w))
  {
    forall s | s in t.snapshots ensures SnapshotFits(Apply(t, w), t.snapshots[s]) {
      assert SnapshotFits(t, t.snapshots[s]);
    }
  }

  lemma OwnDisjoint(t: Tables, w: Writes, c: UUID, list: seq<UUID>)
    requires OwnItems(t, w, c, list)
    ensures w.items.Keys !! t.items.Keys
  {
  }

  /** The own items point exactly at the listed messages. */
  lemma OwnMessages(t: Tables, w: Writes, c: UUID, list: seq<UUID>, p: nat)
    requires OwnItems(t, w, c, list) && p in w.items
    ensures w.items[p].message in list && w.items[p].message in Elements(list)
  {
    OwnMembers(t, w, c, list, w.items[p].message);
    assert w.items[p] == Item(c, w.items[p].message);
  }

  lemma UniqueUnion(t: Tables, w: Writes, c: UUID, list: seq<UUID>)
    requires ItemsUnique(t.items) && OwnItems(t, w, c, list) && NoDup(list)
    requires forall p :: p in t.items && p !in w.droppedItems && t.items[p].conversation == c ==> t.items[p].message !in list
    ensures ItemsUnique(Apply(t, w).items)
  {
    var u := Apply(t, w).items;
    forall p, q | p in u && q in u && u[p] == u[q] ensures p == q {
      if p in w.items && q in w.items {
        OwnDistinct(t, w, c, list, p, q);
      } else if p in w.items {
        OwnMessages(t, w, c, list, p);
      } else if q in w.items {
        OwnMessages(t, w, c, list, q);
      }
    }
  }

  // ---- append

  lemma AppendMessages(t: Tables, w: Writes, c: UUID, ids: seq<UUID>, rows: seq<MessageRow>, m: UUID)
    requires AppendWrites(t, w, c, ids, rows, |ids|, |ids|)
    ensures m in w.messages <==> m in ids
    ensures m in w.messages ==> m !in t.messages && w.messages[m].conversation == c
  {
    assert ids[..|ids|] == ids;
    assert m in w.messages <==> m in Elements(ids);
    if m in ids {
      var i :| 0 <= i < |ids| && ids[i] == m;
    }
  }

  lemma AppendOrder(t: Tables, w: Writes, c: UUID, ids: seq<UUID>, rows: seq<MessageRow>)
    requires ItemsFit(t) && AppendWrites(t, w, c, ids, rows, |ids|, |ids|)
    ensures var o := Order(Apply(t, w), c);
            && Rows.Only(o, Elements(ids)) == ids && Rows.Except(o, Elements(ids)) == Order(t, c)
            && |o| == |Order(t, c)| + |ids|
  {
    assert ids[..|ids|] == ids;
    OwnDisjoint(t, w, c, ids);
    var m, n := ItemsOf(t.items, c), ItemsOf(w.items, c);
    ItemsOfUnion(t.items, {}, w.items, c);
    assert m - {} == m;
    forall p | p in m ensures m[p] !in Elements(ids) {
      assert ItemFits(t, p);
      AppendMessages(t, w, c, ids, rows, m[p]);
    }
    forall p | p in n ensures n[p] in Elements(ids) {
      OwnMessages(t, w, c, ids, p);
    }
    Rows.Weave(m, n, t.nextPosition, Elements(ids));
  }

  lemma AppendOtherItems(t: Tables, w: Writes, c: UUID, list: seq<UUID>, d: UUID)
    requires w.droppedItems == {} && OwnItems(t, w, c, list) && d != c
    ensures ItemsOf(Apply(t, w).items, d) == ItemsOf(t.items, d)
  {
    OwnDisjoint(t, w, c, list);
    ItemsOfUnion(t.items, {}, w.items, d);
    ItemsOfOther(w.items, c, d);
    assert (ItemsOf(t.items, d) - {}) + map[] == ItemsOf(t.items, d);
  }

  lemma AppendOthersKept(t: Tables, w: Writes, c: UUID, ids: seq<UUID>, rows: seq<MessageRow>)
    requires AppendWrites(t, w, c, ids, rows, |ids|, |ids|) && w.conversations.Keys == {c}
    ensures OthersKept(t, Apply(t, w), c)
  {
    AppendMessagesKept(t, w, c, ids, rows);
    forall m | m in w.messages ensures w.messages[m].conversation == c {
      AppendMessages(t, w, c, ids, rows, m);
    }
    forall d | d != c ensures ItemsOf(Apply(t, w).items, d) == ItemsOf(t.items, d) {
      AppendOtherItems(t, w, c, ids[..|ids|], d);
    }
  }

  lemma AppendMessagesKept(t: Tables, w: Writes, c: UUID, ids: seq<UUID>, rows: seq<MessageRow>)
    requires AppendWrites(t, w, c, ids, rows, |ids|, |ids|)
    ensures forall m :: m in t.messages ==> m in Apply(t, w).messages && Apply(t, w).messages[m] == t.messages[m]
  {
    forall m | m in t.messages ensures m in Apply(t, w).messages && Apply(t, w).messages[m] == t.messages[m] {
      AppendMessages(t, w, c, ids, rows, m);
    }
  }

  /** The messages are those from before and, under ids not in use until then, the rows of the batch. */
  ghost predicate BatchStored(t: Tables, u: Tables, ids: seq<UUID>, rows: seq<MessageRow>) {
    && |rows| == |ids|
    && u.messages.Keys == t.messages.Keys + Elements(ids)
    && (forall i :: 0 <= i < |ids| ==> ids[i] !in t.messages && ids[i] in u.messages && u.messages[ids[i]] == rows[i])
    && (forall m :: m in t.messages ==> m in u.messages && u.messages[m] == t.messages[m])
  }

  lemma AppendBatchStored(t: Tables, w: Writes, c: UUID, ids: seq<UUID>, rows: seq<MessageRow>)
    requires AppendWrites(t, w, c, ids, rows, |ids|, |ids|)
    ensures BatchStored(t, Apply(t, w), ids, rows)
  {
    assert ids[..|ids|] == ids;
    PlusEmpty(t.messages);
    AppendMessagesKept(t, w, c, ids, rows);
    forall i | 0 <= i < |ids| ensures ids[i] in w.messages && w.messages[ids[i]] == rows[i] {
      assert ids[i] in Elements(ids);
    }
  }

  lemma AppendFits(t: Tables, w: Writes, c: UUID, ids: seq<UUID>, rows: seq<MessageRow>)
    requires ItemsFit(t) && MessagesFit(t) && AppendWrites(t, w, c, ids, rows, |ids|, |ids|)
    requires w.conversations.Keys == {c}
    ensures ItemsFit(Apply(t, w)) && MessagesFit(Apply(t, w))
  {
    var u := Apply(t, w);
    assert ids[..|ids|] == ids;
    AppendMessagesKept(t, w, c, ids, rows);
    forall p | p in u.items ensures ItemFits(u, p) {
      if p in w.items {
        OwnMessages(t, w, c, ids, p);
        AppendMessages(t, w, c, ids, rows, w.items[p].message);
      } else {
        assert ItemFits(t, p);
      }
    }
    forall m | m in u.messages ensures u.messages[m].conversation in u.conversations {
      AppendMessages(t, w, c, ids, rows, m);
    }
  }

  lemma AppendUnique(t: Tables, w: Writes, c: UUID, ids: seq<UUID>, rows: seq<MessageRow>)
    requires ItemsFit(t) && ItemsUnique(t.items) && AppendWrites(t, w, c, ids, rows, |ids|, |ids|)
    ensures ItemsUnique(Apply(t, w).items)
  {
    assert ids[..|ids|] == ids;
    forall p | p in t.items ensures t.items[p].message !in ids {
      assert ItemFits(t, p);
      AppendMessages(t, w, c, ids, rows, t.items[p].message);
    }
    UniqueUnion(t, w, c, ids);
  }

  /**
   * Committing an append: its batch appears in input order among the items already there, which keep
   * theirs, and its rows are stored beside those already there; nothing else changes.
   */
  lemma CommitAppend(t: Tables, w: Writes, c: UUID, ids: seq<UUID>, rows: seq<MessageRow>)
    requires Consistent(t) && AppendWrites(t, w, c, ids, rows, |ids|, |ids|)
    requires Counted(t, w, c, |Order(t, c)| + |ids|)
    ensures var u := Apply(t, w);
            && Consistent(u) && OthersKept(t, u, c)
            && Rows.Only(Order(u, c), Elements(ids)) == ids && Rows.Except(Order(u, c), Elements(ids)) == Order(t, c)
            && BatchStored(t, u, ids, rows) && u.snapshots == t.snapshots
  {
    AppendOrder(t, w, c, ids, rows);
    AppendBatchStored(t, w, c, ids, rows);
    PlusEmpty(t.snapshots);
    AppendOthersKept(t, w, c, ids, rows);
    AppendFits(t, w, c, ids, rows);
    AppendUnique(t, w, c, ids, rows);
    CountersKept(t, w, c);
    SnapshotsKept(t, w);
  }

  /** Alone, an append puts its batch at the end. */
  lemma CommitAppendLast(t: Tables, w: Writes, c: UUID, ids: seq<UUID>, rows: seq<MessageRow>, base: nat)
    requires AppendWrites(t, w, c, ids, rows, |ids|, |ids|) && base <= t.nextPosition
    requires forall p :: p in t.items && t.items[p].conversation == c ==> p < base
    requires forall p :: p in w.items ==> base <= p
    ensures Order(Apply(t, w), c) == Order(t, c) + ids
  {
    assert ids[..|ids|] == ids;
    OwnDisjoint(t, w, c, ids);
    ItemsOfUnion(t.items, {}, w.items, c);
    assert ItemsOf(t.items, c) - {} == ItemsOf(t.items, c);
    Rows.Concat(ItemsOf(t.items, c), ItemsOf(w.items, c), base, t.nextPosition);
  }

  // ---- rewrite

  lemma PendingRow(t: Tables, w: Writes, c: UUID, now: Time)
    requires CountersExact(t) && RowPending(t, w, c, now) && (c !in t.conversations ==> Order(t, c) == [])
    ensures c in Apply(t, w).conversations
    ensures Apply(t, w).conversations[c].messageCount == |Order(t, c)|
    ensures Apply(t, w).conversations[c].version == Version(t, c)
  {
  }

  lemma RowUpdated(t: Tables, w: Writes, c: UUID, n: nat, now: Time, v: Writes)
    requires AddCount(t, w, c, n, now) == Some(v)
    ensures var rows := Apply(t, w).conversations;
            c in rows && v == w.(conversations := w.conversations[c := ConversationRow(rows[c].messageCount + n, rows[c].version + 1, now)])
  {
  }

  /** The relative update makes the counter exact, whoever inserted the row. */
  lemma RelativeCount(t: Tables, w: Writes, c: UUID, n: nat, now: Time, v: Writes)
    requires Consistent(t) && RowPending(t, w, c, now) && AddCount(t, w, c, n, now) == Some(v)
    ensures v == w.(conversations := v.conversations)
    ensures Counted(t, v, c, |Order(t, c)| + n)
    ensures v.conversations[c] == ConversationRow(|Order(t, c)| + n, Version(t, c) + 1, now)
  {
    OrderSound(t, c);
    PendingRow(t, w, c, now);
    RowUpdated(t, w, c, n, now, v);
  }

  ghost predicate Targets(t: Tables, c: UUID, target: seq<UUID>, dropped: set<UUID>) {
    && NoDup(target)
    && Elements(target) <= StoredIDs(t, c) - dropped
    && dropped <= StoredIDs(t, c)
  }

  lemma RewriteItems(t: Tables, w: Writes, c: UUID, target: seq<UUID>, dropped: set<UUID>, d: UUID)
    requires RewriteWrites(t, w, c, target, |target|, dropped)
    ensures ItemsOf(Apply(t, w).items, d) == ItemsOf(if d == c then w.items else t.items, d)
  {
    assert target[..|target|] == target;
    OwnDisjoint(t, w, c, target);
    ItemsOfUnion(t.items, w.droppedItems, w.items, d);
    if d == c {
      assert (ItemsOf(t.items, c) - w.droppedItems) + ItemsOf(w.items, c) == ItemsOf(w.items, c);
    } else {
      ItemsOfOther(w.items, c, d);
      assert (ItemsOf(t.items, d) - w.droppedItems) + map[] == ItemsOf(t.items, d);
    }
  }

  lemma RewriteOthersKept(t: Tables, w: Writes, c: UUID, target: seq<UUID>, dropped: set<UUID>)
    requires RewriteWrites(t, w, c, target, |target|, dropped) && dropped <= StoredIDs(t, c)
    requires w.conversations.Keys == {c}
    ensures OthersKept(t, Apply(t, w), c)
  {
    forall d | d != c ensures ItemsOf(Apply(t, w).items, d) == ItemsOf(t.items, d) {
      RewriteItems(t, w, c, target, dropped, d);
    }
  }

  lemma RewriteFits(t: Tables, w: Writes, c: UUID, target: seq<UUID>, dropped: set<UUID>)
    requires ItemsFit(t) && MessagesFit(t)
    requires RewriteWrites(t, w, c, target, |target|, dropped) && Targets(t, c, target, dropped)
    ensures ItemsFit(Apply(t, w)) && MessagesFit(Apply(t, w))
  {
    var u := Apply(t, w);
    assert target[..|target|] == target;
    forall p | p in u.items ensures ItemFits(u, p) {
      if p in w.items {
        OwnMessages(t, w, c, target, p);
      } else {
        assert ItemFits(t, p);
        assert t.items[p].conversation != c;
      }
    }
  }

  lemma RewriteUnique(t: Tables, w: Writes, c: UUID, target: seq<UUID>, dropped: set<UUID>)
    requires ItemsUnique(t.items) && NoDup(target) && RewriteWrites(t, w, c, target, |target|, dropped)
    ensures ItemsUnique(Apply(t, w).items)
  {
    assert target[..|target|] == target;
    UniqueUnion(t, w, c, target);
  }

  /**
   * Committing a rewrite: the order of `c` is exactly the target, the dropped messages are gone, and
   * no other conversation loses an item to the cascade.
   */
  lemma CommitRewrite(t: Tables, w: Writes, c: UUID, target: seq<UUID>, dropped: set<UUID>)
    requires Consistent(t) && RewriteWrites(t, w, c, target, |target|, dropped) && Targets(t, c, target, dropped)
    requires Counted(t, w, c, |target|)
    ensures var u := Apply(t, w);
            && Consistent(u) && OthersKept(t, u, c)
            && Order(u, c) == target && u.messages == t.messages - dropped
  {
    PlusEmpty(t.messages - dropped);
    RewriteOthersKept(t, w, c, target, dropped);
    RewriteItems(t, w, c, target, dropped, c);
    assert target[..|target|] == target;
    RewriteFits(t, w, c, target, dropped);
    RewriteUnique(t, w, c, target, dropped);
    CountersKept(t, w, c);
    SnapshotsKept(t, w);
  }

  lemma NoCascade(t: Tables, w: Writes, c: UUID, target: seq<UUID>, gone: set<UUID>, p: nat)
    requires ItemsFit(t) && RewriteWrites(t, w, c, target, |target|, {})
    requires gone <= StoredIDs(t, c) && Elements(target) !! gone && p in Apply(t, w).items
    ensures Apply(t, w).items[p].message !in gone
  {
    if p in w.items {
      assert target[..|target|] == target;
      OwnMessages(t, w, c, target, p);
    } else {
      assert ItemFits(t, p);
    }
  }

  lemma CondemnedIsAll(t: Tables, c: UUID, ids: seq<UUID>)
    requires Elements(ids) <= StoredIDs(t, c)
    ensures Condemned(t.messages, c, ids) == Elements(ids)
  {
    forall m | m in ids ensures m in t.messages && t.messages[m].conversation == c {
      assert m in Elements(ids) && m in StoredIDs(t, c);
    }
  }

  lemma CascadeIsEmpty(t: Tables, w: Writes, c: UUID, target: seq<UUID>, gone: set<UUID>)
    requires ItemsFit(t) && RewriteWrites(t, w, c, target, |target|, {})
    requires gone <= StoredIDs(t, c) && Elements(target) !! gone
    ensures Cascade(Apply(t, w).items, gone) == {}
  {
    var items := Apply(t, w).items;
    forall p | p in items ensures items[p].message !in gone {
      NoCascade(t, w, c, target, gone, p);
    }
  }

  lemma DropOnlyMessages(w: Writes, gone: set<UUID>)
    requires w.messages == map[] && w.droppedMessages == {}
    ensures DropRows(w, gone, {}) == w.(droppedMessages := gone)
  {
    PlusEmpty(w.items);
    assert w.messages - gone == map[];
  }

  /** DELETE FROM messages after the rewrite removes exactly the chosen messages and no item of anyone. */
  lemma DropTouchesNoItem(t: Tables, w: Writes, c: UUID, target: seq<UUID>, ids: seq<UUID>)
    requires ItemsFit(t) && RewriteWrites(t, w, c, target, |target|, {})
    requires Elements(ids) <= StoredIDs(t, c) && Elements(target) !! Elements(ids)
    ensures DropMessages(t, w, c, ids) == w.(droppedMessages := Elements(ids))
  {
    PlusEmpty(t.messages);
    CondemnedIsAll(t, c, ids);
    CascadeIsEmpty(t, w, c, target, Elements(ids));
    DropOnlyMessages(w, Elements(ids));
  }

  /** UNIQUE (conversation_id, message_id) never fires while the order is rewritten, nor does a foreign key. */
  lemma RewriteNeverRefused(t: Tables, w: Writes, c: UUID, target: seq<UUID>, k: nat)
    requires RewriteWrites(t, w, c, target, k, {}) && w.conversations == map[] && k < |target|
    requires NoDup(target) && Elements(target) <= StoredIDs(t, c) && t.nextPosition <= MAX_INT64
    ensures InsertItem(t, w, t.nextPosition, Item(c, target[k])).Some?
  {
    var item, view := Item(c, target[k]), Apply(t, w);
    PlusEmpty(t.messages);
    PlusEmpty(t.conversations);
    assert target[k] in Elements(target) && target[k] in t.messages;
    forall p | p in view.items ensures view.items[p] != item {
      if p in w.items {
        OwnMembers(t, w, c, target[..k], target[k]);
        assert target[k] !in target[..k];
      } else {
        assert p in t.items && p !in ItemsOf(t.items, c);
      }
    }
  }

  // ---- snapshot

  lemma SnapshotAdded(t: Tables, id: UUID, s: SnapshotRow)
    requires Consistent(t) && SnapshotFits(t, s)
    ensures Consistent(t.(snapshots := t.snapshots[id := s]))
    ensures forall d :: Order(t.(snapshots := t.snapshots[id := s]), d) == Order(t, d)
  {
    var u := t.(snapshots := t.snapshots[id := s]);
    forall p | p in u.items ensures ItemFits(u, p) { assert ItemFits(t, p); }
    forall k | k in u.snapshots ensures SnapshotFits(u, u.snapshots[k]) {
      if k != id { assert SnapshotFits(t, t.snapshots[k]); }
    }
  }

  lemma ApplySnapshot(t: Tables, id: UUID, s: SnapshotRow)
    ensures Apply(t, NO_WRITES.(snapshots := map[id := s])) == t.(snapshots := t.snapshots[id := s])
  {
    PlusEmpty(t.conversations);
    PlusEmpty(t.messages);
    PlusEmpty(t.items);
    assert t.snapshots + map[id := s] == t.snapshots[id := s];
  }

  lemma SnapshotComplete(s: SnapshotRow, n: nat)
    requires forall i: nat :: i in s.items <==> i < n
    ensures |s.items| == n
  {
    Rows.OrderedLength(s.items, n);
    AllPositions(s.items, n);
  }

  lemma {:induction false} AllPositions<V>(m: map<nat, V>, n: nat)
    requires forall i: nat :: i < n ==> i in m
    ensures |Rows.Ordered(m, n)| == n
  {
    if n > 0 {
      AllPositions(m, n - 1);
      Rows.Snoc(m, n);
    }
  }

  /** Committing a snapshot adds it and changes nothing else. */
  lemma CommitSnapshot(t: Tables, w: Writes, id: UUID, s: SnapshotRow)
    requires Consistent(t) && SnapshotFits(t, s)
    requires w == NO_WRITES.(snapshots := map[id := s])
    ensures Apply(t, w) == t.(snapshots := t.snapshots[id := s])
    ensures Consistent(Apply(t, w)) && forall d :: Order(Apply(t, w), d) == Order(t, d)
  {
    SnapshotAdded(t, id, s);
    ApplySnapshot(t, id, s);
  }

  // ---- the targets of replace and delete

  /** A replacement leaves a duplicate-free order of stored messages. */
  lemma ReplaceTargets(t: Tables, c: UUID, spec: ReplaceSpec)
    requires Consistent(t) && ReplaceOutcome(Order(t, c), StoredIDs(t, c), spec).Ok?
    ensures Targets(t, c, ReplaceOutcome(Order(t, c), StoredIDs(t, c), spec).value.order, {})
  {
    OrderSound(t, c);
    var pre, mid, post := OutcomeParts(Order(t, c), StoredIDs(t, c), spec);
    NoDupParts(pre, mid, post);
    NoDupParts(pre, spec.insertIDs, post);
  }

  /** So does a deletion, and what it drops is stored and no longer listed. */
  lemma DeleteTargets(t: Tables, c: UUID, spec: DeleteSpec)
    requires Consistent(t) && DeleteOutcome(Order(t, c), spec).Ok?
    ensures var d := DeleteOutcome(Order(t, c), spec).value;
            && Targets(t, c, d.remaining, Elements(d.deleted)) && Targets(t, c, d.remaining, {})
            && Elements(d.remaining) !! Elements(d.deleted)
  {
    OrderSound(t, c);
    var pre, post := DeleteSplits(Order(t, c), spec);
  }
}
