/**
 * A run in which two appends to one conversation overlap and a reader misses a message: the first
 * append draws position 2, the second draws 3 and 4 and commits, the reader gets a page up to 3, and
 * only then the first commits.
 */
module ReaderOverlap {
  import opened Base
  import Body
  import Columns
  import opened Effects
  import opened Machine
  import opened MachineSteps
  import opened Paging
  import opened Reader
  import Rows
  import opened Tables

  function ID(n: byte): UUID {
    UUID([n] + seq(15, i => 0))
  }

  const C := ID(0)
  const Z := ID(1)
  const X := ID(2)
  const Y := ID(3)
  const Y' := ID(4)
  const ROW := MessageRow(C, 1, "text", Columns.EMPTY.(bodyText := Some("hello")), 0)

  lemma Distinct()
    ensures Z != X && Z != Y && Z != Y' && X != Y && X != Y' && Y != Y'
  {
    assert Z.bytes[0] == 1 && X.bytes[0] == 2 && Y.bytes[0] == 3 && Y'.bytes[0] == 4;
  }

  lemma RowDecodes()
    ensures Columns.Decode(ROW.columns).Some?
    ensures exists b :: Columns.Encode(b) == Some(ROW.columns)
  {
    var b := Body.MessageBody(Some("hello"), None);
    assert Columns.Encode(b) == Some(ROW.columns);
  }

  function Copies(ids: seq<UUID>): seq<MessageRow> {
    seq(|ids|, i => ROW)
  }

  /** The transaction of an append with `m` messages and the given items inserted. */
  function Appender(
    ids: seq<UUID>, m: nat, k: nat, convs: map<UUID, ConversationRow>, messages: map<UUID, MessageRow>,
    items: map<nat, Item>, before: map<nat, UUID>): Txn
  {
    Txn(C, 0, Append(ids, Copies(ids)), Appending(m, k), if m == 0 then {} else {KeyShare},
        NO_WRITES.(conversations := convs, messages := messages, items := items), before)
  }

  function Ready(a: Txn, convs: map<UUID, ConversationRow>): Txn {
    a.(stage := ReadyToAppend, held := {KeyShare, NoKeyUpdate}, writes := a.writes.(conversations := convs))
  }

  // ---------------------------------------------------------------- single statements

  /** Only appends that have not counted yet are about. */
  ghost predicate Sharing(s: State) {
    forall y :: y in s.txns ==> s.txns[y].held <= {KeyShare}
  }

  lemma BeginStep(s: State, x: nat, ids: seq<UUID>)
    requires x !in s.txns && ids != []
    ensures Step(s, Begin(x, C, 0, Append(ids, Copies(ids)))) == Some(Put(s, x, Txn(C, 0, Append(ids, Copies(ids)), Begun, {}, NO_WRITES, map[])))
  {
    RowDecodes();
  }

  lemma EnsureStep(s: State, x: nat, ids: seq<UUID>)
    requires x in s.txns && s.txns[x] == Txn(C, 0, Append(ids, Copies(ids)), Begun, {}, NO_WRITES, map[])
    requires C in s.db.conversations || s.txns.Keys == {x}
    ensures Step(s, Advance(x)) ==
            Some(Put(s, x, Appender(ids, 0, 0, if C in s.db.conversations then map[] else map[C := ConversationRow(0, 0, 0)],
                                    map[], map[], map[])))
  {
    PlusEmpty(s.db.conversations);
  }

  lemma MessageStep(s: State, x: nat, ids: seq<UUID>, k: nat, convs: map<UUID, ConversationRow>,
                    messages: map<UUID, MessageRow>, items: map<nat, Item>, before: map<nat, UUID>)
    requires x in s.txns && s.txns[x] == Appender(ids, k, k, convs, messages, items, before) && Sharing(s)
    requires k < |ids|
    requires ids[k] !in s.db.messages && ids[k] !in messages && (C in s.db.conversations || C in convs)
    requires forall y :: y in s.txns && y != x ==> ids[k] !in s.txns[y].writes.messages
    ensures Step(s, Advance(x)) == Some(Put(s, x, Appender(ids, k + 1, k, convs, messages[ids[k] := ROW], items, before)))
  {
    MessageFits(s.db, ids, k, convs, messages, items);
    assert Grantable(s, x, C, KeyShare);
    CopiesDecode(ids, k);
    AppendMessageGoes(s, x);
    assert s.txns[x].held + {KeyShare} == {KeyShare};
    assert Next(s, x) == AppendMessage(s, x);
  }

  lemma CopiesDecode(ids: seq<UUID>, k: nat)
    requires k <= |ids|
    ensures LastDecoded(Copies(ids), k)
  {
    RowDecodes();
  }

  lemma MessageFits(t: Tables, ids: seq<UUID>, k: nat, convs: map<UUID, ConversationRow>, messages: map<UUID, MessageRow>,
                    items: map<nat, Item>)
    requires k < |ids| && ids[k] !in t.messages && ids[k] !in messages && (C in t.conversations || C in convs)
    ensures InsertMessage(t, NO_WRITES.(conversations := convs, messages := messages, items := items), ids[k], ROW).Some?
  {
    PlusEmpty(t.messages);
  }

  lemma ItemStep(s: State, x: nat, ids: seq<UUID>, k: nat, convs: map<UUID, ConversationRow>,
                 messages: map<UUID, MessageRow>, items: map<nat, Item>, before: map<nat, UUID>)
    requires x in s.txns && s.txns[x] == Appender(ids, k + 1, k, convs, messages, items, before)
    requires k < |ids| && s.db.nextPosition <= MAX_INT64 && (C in s.db.conversations || C in convs) && ids[k] in messages
    requires forall p :: p in s.db.items ==> s.db.items[p].message != ids[k]
    requires forall p :: p in items ==> items[p].message != ids[k]
    ensures Step(s, Advance(x)) ==
            Some(Put(s.(db := Draw(s.db)), x,
                     Appender(ids, k + 1, k + 1, convs, messages, items[s.db.nextPosition := Item(C, ids[k])],
                              if k == 0 then ItemsOf(s.db.items, C) else before)))
  {
    PlusEmpty(s.db.items);
  }

  lemma CountStep(s: State, x: nat, ids: seq<UUID>, convs: map<UUID, ConversationRow>,
                  messages: map<UUID, MessageRow>, items: map<nat, Item>, before: map<nat, UUID>, count: nat, version: nat)
    requires x in s.txns && Sharing(s) && ids != []
    requires var n := |ids|; s.txns[x] == Appender(ids, n, n, convs, messages, items, before)
    requires C in s.db.conversations + convs && (s.db.conversations + convs)[C] == ConversationRow(count, version, 0)
    requires count + |ids| <= MAX_INT64 && version < MAX_INT64
    ensures Step(s, Advance(x)) ==
            Some(Put(s, x, Ready(s.txns[x], convs[C := ConversationRow(count + |ids|, version + 1, 0)])))
  {
    RowDecodes();
    assert Grantable(s, x, C, NoKeyUpdate);
    assert s.txns[x].held + {NoKeyUpdate} == {KeyShare, NoKeyUpdate};
    assert LastDecoded(Copies(ids), |ids|);
  }

  // ---------------------------------------------------------------- the session

  lemma Then(actions: seq<Action>, s: State, r: Reader, a: Action)
    requires Session(C, actions) == Some((s, r))
    ensures Session(C, actions + [a]) == Act(s, r, C, a)
  {
    assert (actions + [a])[..|actions|] == actions;
  }

  /** Begins an append and ensures the conversation. */
  lemma Start(actions: seq<Action>, s: State, r: Reader, x: nat, ids: seq<UUID>) returns (more: seq<Action>)
    requires Session(C, actions) == Some((s, r)) && x !in s.txns && ids != []
    requires C in s.db.conversations || s.txns == map[]
    ensures Session(C, more) ==
            Some((Put(s, x, Appender(ids, 0, 0, if C in s.db.conversations then map[] else map[C := ConversationRow(0, 0, 0)],
                                     map[], map[], map[])), r))
  {
    var e := Begin(x, C, 0, Append(ids, Copies(ids)));
    BeginStep(s, x, ids);
    Then(actions, s, r, Do(e));
    var s1 := Step(s, e).value;
    EnsureStep(s1, x, ids);
    Then(actions + [Do(e)], s1, r, Do(Advance(x)));
    more := actions + [Do(e)] + [Do(Advance(x))];
    assert Put(s, x, Step(s1, Advance(x)).value.txns[x]) == Step(s1, Advance(x)).value;
  }

  /** Inserts the next message. */
  lemma AddMessage(actions: seq<Action>, s: State, r: Reader, x: nat, ids: seq<UUID>, k: nat, convs: map<UUID, ConversationRow>,
                   messages: map<UUID, MessageRow>, items: map<nat, Item>, before: map<nat, UUID>) returns (more: seq<Action>)
    requires Session(C, actions) == Some((s, r)) && Sharing(s)
    requires x in s.txns && s.txns[x] == Appender(ids, k, k, convs, messages, items, before) && k < |ids|
    requires ids[k] !in s.db.messages && ids[k] !in messages && (C in s.db.conversations || C in convs)
    requires forall y :: y in s.txns && y != x ==> ids[k] !in s.txns[y].writes.messages
    ensures Session(C, more) == Some((Put(s, x, Appender(ids, k + 1, k, convs, messages[ids[k] := ROW], items, before)), r))
  {
    MessageStep(s, x, ids, k, convs, messages, items, before);
    Then(actions, s, r, Do(Advance(x)));
    more := actions + [Do(Advance(x))];
  }

  /** Inserts the next message and its item. */
  lemma Insert(actions: seq<Action>, s: State, r: Reader, x: nat, ids: seq<UUID>, k: nat, convs: map<UUID, ConversationRow>,
               messages: map<UUID, MessageRow>, items: map<nat, Item>, before: map<nat, UUID>) returns (more: seq<Action>)
    requires Session(C, actions) == Some((s, r)) && Sharing(s)
    requires x in s.txns && s.txns[x] == Appender(ids, k, k, convs, messages, items, before) && k < |ids|
    requires ids[k] !in s.db.messages && ids[k] !in messages && (C in s.db.conversations || C in convs)
    requires forall y :: y in s.txns && y != x ==> ids[k] !in s.txns[y].writes.messages
    requires s.db.nextPosition <= MAX_INT64
    requires forall p :: p in s.db.items ==> s.db.items[p].message != ids[k]
    requires forall p :: p in items ==> items[p].message != ids[k]
    ensures Session(C, more) ==
            Some((Put(s.(db := Draw(s.db)), x,
                      Appender(ids, k + 1, k + 1, convs, messages[ids[k] := ROW], items[s.db.nextPosition := Item(C, ids[k])],
                               if k == 0 then ItemsOf(s.db.items, C) else before)), r))
  {
    var with := AddMessage(actions, s, r, x, ids, k, convs, messages, items, before);
    var s1 := Put(s, x, Appender(ids, k + 1, k, convs, messages[ids[k] := ROW], items, before));
    ItemStep(s1, x, ids, k, convs, messages[ids[k] := ROW], items, before);
    Then(with, s1, r, Do(Advance(x)));
    more := with + [Do(Advance(x))];
    var s2 := Step(s1, Advance(x)).value;
    assert s2 == Put(s.(db := Draw(s.db)), x, s2.txns[x]);
  }

  /** Updates the counter and commits. */
  lemma Finish(actions: seq<Action>, s: State, r: Reader, x: nat, ids: seq<UUID>, convs: map<UUID, ConversationRow>,
               messages: map<UUID, MessageRow>, items: map<nat, Item>, before: map<nat, UUID>, count: nat, version: nat)
    returns (more: seq<Action>)
    requires Session(C, actions) == Some((s, r)) && Sharing(s) && ids != []
    requires x in s.txns && s.txns[x] == Appender(ids, |ids|, |ids|, convs, messages, items, before)
    requires C in s.db.conversations + convs && (s.db.conversations + convs)[C] == ConversationRow(count, version, 0)
    requires count + |ids| <= MAX_INT64 && version < MAX_INT64 && convs.Keys <= {C}
    ensures Session(C, more) ==
            Some((State(Tables(s.db.conversations[C := ConversationRow(count + |ids|, version + 1, 0)], s.db.messages + messages,
                               s.db.items + items, s.db.snapshots, s.db.nextPosition),
                        s.txns - {x}), r))
  {
    CountStep(s, x, ids, convs, messages, items, before, count, version);
    Then(actions, s, r, Do(Advance(x)));
    var s1 := Step(s, Advance(x)).value;
    Then(actions + [Do(Advance(x))], s1, r, Do(Advance(x)));
    more := actions + [Do(Advance(x))] + [Do(Advance(x))];
    PlusEmpty(s.db.messages);
    PlusEmpty(s.db.items);
    PlusEmpty(s.db.snapshots);
    var convs' := convs[C := ConversationRow(count + |ids|, version + 1, 0)];
    assert s.db.conversations + convs' == s.db.conversations[C := ConversationRow(count + |ids|, version + 1, 0)];
    assert s1.txns - {x} == s.txns - {x};
  }

  const ONE := Tables(map[C := ConversationRow(1, 1, 0)], map[Z := ROW], map[1 := Item(C, Z)], map[], 2)

  /** After the first append, with the second in flight. */
  const SLOW := Appender([X], 1, 1, map[], map[X := ROW], map[2 := Item(C, X)], map[1 := Z])

  const THREE := Tables(
    map[C := ConversationRow(3, 2, 0)], map[Z := ROW, Y := ROW, Y' := ROW],
    map[1 := Item(C, Z), 3 := Item(C, Y), 4 := Item(C, Y')], map[], 5)

  const ALL := Tables(
    map[C := ConversationRow(4, 3, 0)], map[Z := ROW, Y := ROW, Y' := ROW, X := ROW],
    map[1 := Item(C, Z), 2 := Item(C, X), 3 := Item(C, Y), 4 := Item(C, Y')], map[], 5)

  const FIRST0 := Appender([Z], 0, 0, map[C := ConversationRow(0, 0, 0)], map[], map[], map[])

  const FIRST1 := Appender([Z], 1, 1, map[C := ConversationRow(0, 0, 0)], map[Z := ROW], map[1 := Item(C, Z)], map[])

  lemma FirstInserts() returns (a: seq<Action>)
    ensures Session(C, a) == Some((State(EMPTY_DATABASE.(nextPosition := 2), map[0 := FIRST1]), NEW_READER))
  {
    assert Session(C, []) == Some((INITIAL, NEW_READER));
    a := Start([], INITIAL, NEW_READER, 0, [Z]);
    var s := Put(INITIAL, 0, FIRST0);
    a := Insert(a, s, NEW_READER, 0, [Z], 0, map[C := ConversationRow(0, 0, 0)], map[], map[], map[]);
    assert ItemsOf(map[], C) == map[];
    assert Put(s.(db := Draw(s.db)), 0, FIRST1) == State(EMPTY_DATABASE.(nextPosition := 2), map[0 := FIRST1]);
  }

  lemma OneTables(t: Tables)
    requires t == Tables(EMPTY_DATABASE.conversations[C := ConversationRow(1, 1, 0)], EMPTY_DATABASE.messages + map[Z := ROW],
                         EMPTY_DATABASE.items + map[1 := Item(C, Z)], EMPTY_DATABASE.snapshots, 2)
    ensures t == ONE
  {
    assert t.conversations == ONE.conversations;
    assert t.messages == ONE.messages;
    assert t.items == ONE.items;
  }

  lemma FirstAppend() returns (a: seq<Action>)
    ensures Session(C, a) == Some((State(ONE, map[]), NEW_READER))
  {
    a := FirstInserts();
    var s := State(EMPTY_DATABASE.(nextPosition := 2), map[0 := FIRST1]);
    a := Finish(a, s, NEW_READER, 0, [Z], map[C := ConversationRow(0, 0, 0)], map[Z := ROW], map[1 := Item(C, Z)], map[], 0, 0);
    OneTables(Session(C, a).value.0.db);
    assert s.txns - {0} == map[];
  }

  const SLOW0 := Appender([X], 0, 0, map[], map[], map[], map[])

  lemma SecondBegins() returns (a: seq<Action>)
    ensures Session(C, a) == Some((State(ONE, map[1 := SLOW0]), NEW_READER))
  {
    a := FirstAppend();
    var s := State(ONE, map[]);
    a := Start(a, s, NEW_READER, 1, [X]);
    assert s.txns[1 := SLOW0] == map[1 := SLOW0];
  }

  lemma SecondState(s: State)
    requires s == State(ONE, map[1 := SLOW0])
    ensures ItemsOf(s.db.items, C) == map[1 := Z]
    ensures Put(s.(db := Draw(s.db)), 1, SLOW) == State(ONE.(nextPosition := 3), map[1 := SLOW])
  {
    assert s.txns[1 := SLOW] == map[1 := SLOW];
  }

  lemma SecondInserts() returns (a: seq<Action>)
    ensures Session(C, a) == Some((State(ONE.(nextPosition := 3), map[1 := SLOW]), NEW_READER))
  {
    Distinct();
    a := SecondBegins();
    var s := State(ONE, map[1 := SLOW0]);
    a := Insert(a, s, NEW_READER, 1, [X], 0, map[], map[], map[], map[]);
    SecondState(s);
  }

  const FAST1 := Appender([Y, Y'], 1, 1, map[], map[Y := ROW], map[3 := Item(C, Y)], map[1 := Z])

  const FAST2 := Appender([Y, Y'], 2, 2, map[], map[Y := ROW, Y' := ROW], map[3 := Item(C, Y), 4 := Item(C, Y')], map[1 := Z])

  const FAST0 := Appender([Y, Y'], 0, 0, map[], map[], map[], map[])

  lemma ThirdBegins() returns (a: seq<Action>)
    ensures Session(C, a) == Some((State(ONE.(nextPosition := 3), map[1 := SLOW, 2 := FAST0]), NEW_READER))
  {
    a := SecondInserts();
    var s := State(ONE.(nextPosition := 3), map[1 := SLOW]);
    a := Start(a, s, NEW_READER, 2, [Y, Y']);
    assert s.txns[2 := FAST0] == map[1 := SLOW, 2 := FAST0];
  }

  lemma ThirdStarts() returns (a: seq<Action>)
    ensures Session(C, a) == Some((State(ONE.(nextPosition := 4), map[1 := SLOW, 2 := FAST1]), NEW_READER))
  {
    Distinct();
    a := ThirdBegins();
    var s := State(ONE.(nextPosition := 3), map[1 := SLOW, 2 := FAST0]);
    a := Insert(a, s, NEW_READER, 2, [Y, Y'], 0, map[], map[], map[], map[]);
    ThirdState(s);
  }

  lemma ThirdState(s: State)
    requires s == State(ONE.(nextPosition := 3), map[1 := SLOW, 2 := FAST0])
    ensures ItemsOf(s.db.items, C) == map[1 := Z]
    ensures Put(s.(db := Draw(s.db)), 2, FAST1) == State(ONE.(nextPosition := 4), map[1 := SLOW, 2 := FAST1])
  {
    assert s.txns[2 := FAST1] == map[1 := SLOW, 2 := FAST1];
  }

  lemma ThirdInserts() returns (a: seq<Action>)
    ensures Session(C, a) == Some((State(ONE.(nextPosition := 5), map[1 := SLOW, 2 := FAST2]), NEW_READER))
  {
    Distinct();
    a := ThirdStarts();
    var s := State(ONE.(nextPosition := 4), map[1 := SLOW, 2 := FAST1]);
    a := Insert(a, s, NEW_READER, 2, [Y, Y'], 1, map[], map[Y := ROW], map[3 := Item(C, Y)], map[1 := Z]);
    ThirdWrites(s);
  }

  lemma ThirdWrites(s: State)
    requires s == State(ONE.(nextPosition := 4), map[1 := SLOW, 2 := FAST1])
    ensures Put(s.(db := Draw(s.db)), 2, FAST2) == State(ONE.(nextPosition := 5), map[1 := SLOW, 2 := FAST2])
  {
    assert s.txns[2 := FAST2] == map[1 := SLOW, 2 := FAST2];
  }

  lemma ThreeTables(t: Tables)
    requires t == Tables(ONE.conversations[C := ConversationRow(3, 2, 0)], ONE.messages + map[Y := ROW, Y' := ROW],
                         ONE.items + map[3 := Item(C, Y), 4 := Item(C, Y')], ONE.snapshots, 5)
    ensures t == THREE
  {
    assert t.conversations == THREE.conversations;
    assert t.messages == THREE.messages;
    assert t.items == THREE.items;
  }

  lemma ThirdCommits() returns (a: seq<Action>)
    ensures Session(C, a) == Some((State(THREE, map[1 := SLOW]), NEW_READER))
  {
    a := ThirdInserts();
    var s := State(ONE.(nextPosition := 5), map[1 := SLOW, 2 := FAST2]);
    a := Finish(a, s, NEW_READER, 2, [Y, Y'], map[], map[Y := ROW, Y' := ROW], map[3 := Item(C, Y), 4 := Item(C, Y')],
                map[1 := Z], 1, 1);
    ThreeTables(Session(C, a).value.0.db);
    assert s.txns - {2} == map[1 := SLOW];
  }

  lemma PageIs(t: Tables, r: Reader, size: int32, rows: seq<Rows.Row<UUID>>)
    requires Rows.IsSelection(rows, ItemsOf(t.items, C), Lower(r.after), t.nextPosition) && 0 < size <= 100
    ensures NextPage(t, C, r, size) == Cut(rows, size)
  {
    Rows.SelectionUnique(rows, ItemsOf(t.items, C), Lower(r.after), t.nextPosition);
  }

  /** A page of two out of three, and a last page of one. */
  lemma FullPage(t: Tables, r: Reader, a: Rows.Row<UUID>, b: Rows.Row<UUID>, d: Rows.Row<UUID>)
    requires Rows.IsSelection([a, b, d], ItemsOf(t.items, C), Lower(r.after), t.nextPosition)
    ensures AfterPage(r, NextPage(t, C, r, 2)) == Reader(Some(b.position), r.seen + {a.value, b.value}, false)
  {
    PageIs(t, r, 2, [a, b, d]);
    assert [a, b, d][..2] == [a, b];
    assert Rows.Values([a, b]) == [a.value, b.value];
    assert Elements([a.value, b.value]) == {a.value, b.value};
  }

  lemma LastPage(t: Tables, r: Reader, a: Rows.Row<UUID>)
    requires Rows.IsSelection([a], ItemsOf(t.items, C), Lower(r.after), t.nextPosition)
    ensures AfterPage(r, NextPage(t, C, r, 2)) == Reader(None, r.seen + {a.value}, true)
  {
    PageIs(t, r, 2, [a]);
    assert Rows.Values([a]) == [a.value];
    assert Elements([a.value]) == {a.value};
  }

  lemma RestOfThree()
    ensures Rows.IsSelection([Rows.Row(1, Z), Rows.Row(3, Y), Rows.Row(4, Y')], ItemsOf(THREE.items, C), 0, 5)
  {
    var rows := [Rows.Row(1, Z), Rows.Row(3, Y), Rows.Row(4, Y')];
    assert ItemsOf(THREE.items, C) == map[1 := Z, 3 := Y, 4 := Y'];
    assert Rows.Row(1, Z) == rows[0] && Rows.Row(3, Y) == rows[1] && Rows.Row(4, Y') == rows[2];
  }

  lemma RestOfAll()
    ensures Rows.IsSelection([Rows.Row(4, Y')], ItemsOf(ALL.items, C), 4, 5)
  {
    assert ItemsOf(ALL.items, C) == map[1 := Z, 2 := X, 3 := Y, 4 := Y'];
    assert Rows.Row(4, Y') == [Rows.Row(4, Y')][0];
  }

  lemma PageOfThree(t: Tables, r: Reader)
    requires t == THREE && r == NEW_READER
    ensures AfterPage(r, NextPage(t, C, r, 2)) == Reader(Some(3), {Z, Y}, false)
  {
    RestOfThree();
    FullPage(t, r, Rows.Row(1, Z), Rows.Row(3, Y), Rows.Row(4, Y'));
    assert {} + {Z, Y} == {Z, Y};
  }

  lemma PageOfAll(t: Tables, r: Reader)
    requires t == ALL && r == Reader(Some(3), {Z, Y}, false)
    ensures AfterPage(r, NextPage(t, C, r, 2)) == Reader(None, {Z, Y} + {Y'}, true)
  {
    RestOfAll();
    LastPage(t, r, Rows.Row(4, Y'));
  }

  lemma FirstPage() returns (a: seq<Action>)
    ensures Session(C, a) == Some((State(THREE, map[1 := SLOW]), Reader(Some(3), {Z, Y}, false)))
  {
    a := ThirdCommits();
    Then(a, State(THREE, map[1 := SLOW]), NEW_READER, Read(2));
    PageOfThree(THREE, NEW_READER);
    a := a + [Read(2)];
  }

  lemma AllTables(t: Tables)
    requires t == Tables(THREE.conversations[C := ConversationRow(4, 3, 0)], THREE.messages + map[X := ROW],
                         THREE.items + map[2 := Item(C, X)], THREE.snapshots, 5)
    ensures t == ALL
  {
    assert t.conversations == ALL.conversations;
    assert t.messages == ALL.messages;
    assert t.items == ALL.items;
  }

  lemma SlowCommits() returns (a: seq<Action>)
    ensures Session(C, a) == Some((State(ALL, map[]), Reader(Some(3), {Z, Y}, false)))
  {
    a := FirstPage();
    var s := State(THREE, map[1 := SLOW]);
    a := Finish(a, s, Reader(Some(3), {Z, Y}, false), 1, [X], map[], map[X := ROW], map[2 := Item(C, X)], map[1 := Z], 3, 2);
    AllTables(Session(C, a).value.0.db);
    assert s.txns - {1} == map[];
  }

  /** The next page has no cursor, and message X, listed by then, is in none of the pages. */
  lemma OverlapMisses() returns (actions: seq<Action>, size: int32)
    ensures Session(C, actions).Some?
    ensures var (s, r) := Session(C, actions).value;
            && AfterPage(r, NextPage(s.db, C, r, size)).done
            && X in Order(s.db, C) && X !in AfterPage(r, NextPage(s.db, C, r, size)).seen
  {
    Distinct();
    actions := SlowCommits();
    size := 2;
    PageOfAll(ALL, Reader(Some(3), {Z, Y}, false));
    var m := ItemsOf(ALL.items, C);
    assert 2 in m && m[2] == X;
    Rows.OrderedMembers(m, 5, X);
  }
}
