/** A reader who pages through a conversation while transactions run: when nothing is missed, and when something is. */
module Reader {
  import opened Base
  import opened Machine
  import opened MachineCommit
  import opened MachineInvariant
  import opened MachineRuns
  import opened Paging
  import Rows
  import opened Tables

  /** `after` is the cursor of the last page, `seen` what all pages so far have returned. */
  datatype Reader = Reader(after: Option<int>, seen: set<UUID>, done: bool)

  const NEW_READER := Reader(None, {}, false)

  datatype Action = Do(e: Event) | Read(size: int32)

  function NextPage(t: Tables, c: UUID, r: Reader, size: int32): Page<UUID> {
    PageOf(ItemsOf(t.items, c), r.after, size, t.nextPosition)
  }

  function AfterPage(r: Reader, page: Page<UUID>): Reader {
    Reader(page.next, r.seen + Elements(Rows.Values(page.rows)), page.next.None?)
  }

  ghost function Act(s: State, r: Reader, c: UUID, a: Action): Option<(State, Reader)> {
    match a
    case Do(e) => (match Step(s, e) case None => None case Some(s') => Some((s', r)))
    case Read(size) => if r.done then None else Some((s, AfterPage(r, NextPage(s.db, c, r, size))))
  }

  /** Transactions and one reader of conversation `c`, from the empty database. */
  ghost function Session(c: UUID, actions: seq<Action>): Option<(State, Reader)> {
    if actions == [] then Some((INITIAL, NEW_READER))
    else
      var last := |actions| - 1;
      match Session(c, actions[..last])
      case None => None
      case Some((s, r)) => Act(s, r, c, actions[last])
  }

  // ---------------------------------------------------------------- what the reader relies on

  /** Everything the conversation holds at or below the cursor has been returned. */
  ghost predicate Covered(t: Tables, c: UUID, r: Reader) {
    forall p :: p in t.items && t.items[p].conversation == c && p < Lower(r.after) ==> t.items[p].message in r.seen
  }

  /** What a transaction in flight has inserted lies behind everything committed and behind the cursor. */
  ghost predicate Behind(t: Tables, c: UUID, a: Txn, r: Reader) {
    a.conversation == c ==>
      forall q :: q in a.writes.items ==>
        Lower(r.after) <= q && forall p :: p in t.items && t.items[p].conversation == c ==> p < q
  }

  ghost predicate IsRewrite(a: Txn) {
    a.op.Replace? || a.op.Delete?
  }

  /** This holds of rewrites whatever runs beside them, and of appends too when they do not overlap. */
  ghost predicate InFlight(s: State, c: UUID, r: Reader, appendsToo: bool) {
    && Lower(r.after) <= s.db.nextPosition
    && forall x :: x in s.txns && (appendsToo || IsRewrite(s.txns[x])) ==> Behind(s.db, c, s.txns[x], r)
  }

  /** All that the transaction has inserted at or below the cursor has been returned already. */
  ghost predicate Harmless(a: Txn, r: Reader) {
    forall q :: q in a.writes.items && q < Lower(r.after) ==> a.writes.items[q].message in r.seen
  }

  ghost predicate Commits(s: State, e: Event) {
    e.Advance? && e.x in s.txns && ReadyToCommit(s.txns[e.x])
  }

  /** The action commits an append to the conversation with an item at or below the cursor that no page has returned. */
  ghost predicate Late(s: State, r: Reader, c: UUID, a: Action) {
    && a.Do? && Commits(s, a.e)
    && s.txns[a.e.x].op.Append? && s.txns[a.e.x].conversation == c && !Harmless(s.txns[a.e.x], r)
  }

  ghost predicate LateAt(c: UUID, actions: seq<Action>, k: nat)
    requires k < |actions|
  {
    Session(c, actions[..k]).Some? && Late(Session(c, actions[..k]).value.0, Session(c, actions[..k]).value.1, c, actions[k])
  }

  ghost predicate NeverLate(c: UUID, actions: seq<Action>) {
    forall k :: 0 <= k < |actions| ==> !LateAt(c, actions, k)
  }

  ghost predicate CoveredAfter(c: UUID, actions: seq<Action>) {
    Session(c, actions).Some? ==> Covered(Session(c, actions).value.0.db, c, Session(c, actions).value.1)
  }

  ghost predicate AlwaysCovered(c: UUID, actions: seq<Action>) {
    forall k :: 0 <= k <= |actions| ==> CoveredAfter(c, actions[..k])
  }

  ghost predicate Inserting(a: Txn, c: UUID) {
    a.conversation == c && a.op.Append? && a.writes.items != map[]
  }

  /** No two appends to the conversation have inserted items at the same time. */
  ghost predicate Solo(s: State, c: UUID) {
    forall x, y :: x in s.txns && y in s.txns && Inserting(s.txns[x], c) && Inserting(s.txns[y], c) ==> x == y
  }

  ghost predicate SoloAfter(c: UUID, actions: seq<Action>) {
    Session(c, actions).Some? ==> Solo(Session(c, actions).value.0, c)
  }

  ghost predicate AlwaysSolo(c: UUID, actions: seq<Action>) {
    forall k :: 0 <= k <= |actions| ==> SoloAfter(c, actions[..k])
  }

  // ---------------------------------------------------------------- reading a page

  lemma RowListed<V>(m: map<nat, V>, lo: nat, hi: nat, p: nat) returns (i: nat)
    requires p in m && lo <= p < hi
    ensures i < |Rows.Between(m, lo, hi)| && Rows.Between(m, lo, hi)[i] == Rows.Row(p, m[p])
  {
    Rows.BetweenIsSelection(m, lo, hi);
    i :| 0 <= i < |Rows.Between(m, lo, hi)| && Rows.Between(m, lo, hi)[i] == Rows.Row(p, m[p]);
  }

  /** A page returns everything between its two cursors; without a new one, everything behind the old. */
  lemma PageReturns(t: Tables, c: UUID, r: Reader, size: int32, p: nat)
    requires ItemsFit(t) && p in t.items && t.items[p].conversation == c && Lower(r.after) <= p
    requires var next := NextPage(t, c, r, size).next; next.Some? ==> p < Lower(next)
    ensures t.items[p].message in AfterPage(r, NextPage(t, c, r, size)).seen
  {
    var m := ItemsOf(t.items, c);
    var page, rest := NextPage(t, c, r, size), Rest(m, r.after, t.nextPosition);
    assert ItemFits(t, p);
    Rows.BetweenIsSelection(m, Lower(r.after), t.nextPosition);
    var i := RowListed(m, Lower(r.after), t.nextPosition, p);
    if page.next.Some? {
      assert rest[|page.rows| - 1].position == page.next.value;
    }
    assert i < |page.rows| && page.rows[i] == rest[i];
    assert Rows.Values(page.rows)[i] == m[p];
  }

  /** The cursor of a page is the position of a committed item. */
  lemma CursorIsItem(t: Tables, c: UUID, r: Reader, size: int32)
    requires NextPage(t, c, r, size).next.Some?
    ensures var p := NextPage(t, c, r, size).next.value; p >= 0 && p in t.items && t.items[p].conversation == c
  {
    Rows.BetweenIsSelection(ItemsOf(t.items, c), Lower(r.after), t.nextPosition);
  }

  lemma ReadKeepsCovered(t: Tables, c: UUID, r: Reader, size: int32)
    requires ItemsFit(t) && Covered(t, c, r)
    ensures Covered(t, c, AfterPage(r, NextPage(t, c, r, size)))
  {
    var r' := AfterPage(r, NextPage(t, c, r, size));
    forall p | p in t.items && t.items[p].conversation == c && p < Lower(r'.after) ensures t.items[p].message in r'.seen {
      if Lower(r.after) <= p {
        PageReturns(t, c, r, size, p);
      }
    }
  }

  /** A new cursor is at a committed item, so what lies behind all of those lies behind it. */
  lemma ReadKeepsInFlight(s: State, c: UUID, r: Reader, size: int32, appendsToo: bool)
    requires ItemsFit(s.db) && InFlight(s, c, r, appendsToo)
    ensures InFlight(s, c, AfterPage(r, NextPage(s.db, c, r, size)), appendsToo)
  {
    if NextPage(s.db, c, r, size).next.Some? {
      CursorIsItem(s.db, c, r, size);
      assert ItemFits(s.db, NextPage(s.db, c, r, size).next.value);
    }
  }

  // ---------------------------------------------------------------- steps of transactions

  lemma OwnFacts(t: Tables, a: Txn)
    requires TxnInv(t, a)
    ensures forall q :: q in a.writes.items ==> a.writes.items[q].conversation == a.conversation && q !in t.items
  {
  }

  /** A statement adds at most the position it draws to the transaction's own items. */
  ghost predicate DrawsOne(s: State, r: State, x: nat) {
    x in s.txns && x in r.txns
    && r.txns[x].writes.items.Keys <= s.txns[x].writes.items.Keys + {s.db.nextPosition}
    && (r.db.nextPosition == s.db.nextPosition ==> r.txns[x].writes.items.Keys <= s.txns[x].writes.items.Keys)
  }

  lemma AppendDrawsOne(s: State, x: nat)
    requires x in s.txns && s.txns[x].op.Append? && !ReadyToCommit(s.txns[x]) && Next(s, x).Some?
    ensures DrawsOne(s, Next(s, x).value, x)
  {
  }

  lemma RewriteDrawsOne(s: State, x: nat)
    requires x in s.txns && IsRewrite(s.txns[x]) && !ReadyToCommit(s.txns[x]) && Next(s, x).Some?
    ensures DrawsOne(s, Next(s, x).value, x)
  {
  }

  lemma SnapshotDrawsOne(s: State, x: nat)
    requires x in s.txns && s.txns[x].op.Snapshot? && !ReadyToCommit(s.txns[x]) && Next(s, x).Some?
    ensures DrawsOne(s, Next(s, x).value, x)
  {
  }

  lemma MoveKeepsInFlight(s: State, s': State, x: nat, c: UUID, r: Reader, appendsToo: bool)
    requires ItemsFit(s.db) && InFlight(s, c, r, appendsToo) && OnlyMoves(s, s', x) && DrawsOne(s, s', x)
    ensures InFlight(s', c, r, appendsToo)
  {
    forall p | p in s.db.items ensures p < s.db.nextPosition { assert ItemFits(s.db, p); }
    forall y | y in s'.txns && (appendsToo || IsRewrite(s'.txns[y])) ensures Behind(s'.db, c, s'.txns[y], r) {
      assert Behind(s.db, c, s.txns[y], r);
    }
  }

  lemma StatementKeepsInFlight(s: State, x: nat, c: UUID, r: Reader, appendsToo: bool)
    requires ItemsFit(s.db) && InFlight(s, c, r, appendsToo) && x in s.txns && !ReadyToCommit(s.txns[x]) && Next(s, x).Some?
    ensures InFlight(Next(s, x).value, c, r, appendsToo)
  {
    NextWithoutCommit(s, x);
    match s.txns[x].op
    case Append(_, _) => AppendDrawsOne(s, x);
    case Snapshot(_, _) => SnapshotDrawsOne(s, x);
    case _ => RewriteDrawsOne(s, x);
    MoveKeepsInFlight(s, Next(s, x).value, x, c, r, appendsToo);
  }

  /**
   * When one of two transactions on a conversation commits items, the other has inserted none: the
   * locks see to it unless both are appends.
   */
  lemma CommitterAlone(s: State, x: nat, y: nat, c: UUID)
    requires Inv(s) && x in s.txns && y in s.txns && x != y && ReadyToCommit(s.txns[x])
    requires Solo(s, c) || IsRewrite(s.txns[y])
    requires s.txns[x].conversation == s.txns[y].conversation == c && s.txns[x].writes.items != map[]
    ensures s.txns[y].writes.items == map[]
  {
    var a, b := s.txns[x], s.txns[y];
    assert TxnInv(s.db, a) && TxnInv(s.db, b) && PairInv(s.db, a, b);
    if a.stage.ReadyToAppend? {
      AppendNeighbours(s.db, a, b);
      if b.stage.Appending? {
        assert Inserting(a, c) && (b.writes.items != map[] ==> Inserting(b, c));
      }
    } else if a.stage.ReadyToRewrite? {
      RewriteNeighbours(s.db, a, b);
    }
  }

  /** The items of a conversation after a commit come from before or from the committed writes. */
  lemma CommittedItem(t: Tables, a: Txn, p: nat)
    requires TxnInv(t, a) && p in Apply(t, a.writes).items
    ensures p in t.items && p !in a.writes.items ==> Apply(t, a.writes).items[p] == t.items[p]
    ensures p !in t.items ==> p in a.writes.items
    ensures p in a.writes.items ==>
              && Apply(t, a.writes).items[p] == a.writes.items[p]
              && a.writes.items[p].conversation == a.conversation && p !in t.items
  {
    OwnFacts(t, a);
  }

  lemma CommitKeepsBehind(s: State, x: nat, y: nat, c: UUID, r: Reader)
    requires Inv(s) && x in s.txns && y in s.txns && x != y && ReadyToCommit(s.txns[x])
    requires (Solo(s, c) || IsRewrite(s.txns[y])) && Behind(s.db, c, s.txns[y], r)
    ensures Behind(Apply(s.db, s.txns[x].writes), c, s.txns[y], r)
  {
    var a, b := s.txns[x], s.txns[y];
    var u := Apply(s.db, a.writes);
    assert TxnInv(s.db, a);
    if b.conversation == c {
      forall p, q | p in u.items && u.items[p].conversation == c && q in b.writes.items ensures p < q {
        CommittedItem(s.db, a, p);
        if p in a.writes.items {
          CommitterAlone(s, x, y, c);
        }
      }
    }
  }

  lemma StepKeepsInFlight(s: State, e: Event, c: UUID, r: Reader, appendsToo: bool)
    requires Inv(s) && (appendsToo ==> Solo(s, c)) && InFlight(s, c, r, appendsToo) && Step(s, e).Some?
    ensures InFlight(Step(s, e).value, c, r, appendsToo)
  {
    if e.Advance? {
      if ReadyToCommit(s.txns[e.x]) {
        var s' := Commit(s, e.x);
        forall y | y in s'.txns && (appendsToo || IsRewrite(s'.txns[y])) ensures Behind(s'.db, c, s'.txns[y], r) {
          CommitKeepsBehind(s, e.x, y, c, r);
        }
      } else {
        StatementKeepsInFlight(s, e.x, c, r, appendsToo);
      }
    }
  }

  // ---------------------------------------------------------------- when a step uncovers the reader

  lemma CommitKeepsCovered(t: Tables, a: Txn, c: UUID, r: Reader)
    requires TxnInv(t, a) && Covered(t, c, r) && (a.conversation == c ==> Harmless(a, r))
    ensures Covered(Apply(t, a.writes), c, r)
  {
    var u := Apply(t, a.writes);
    forall p | p in u.items && u.items[p].conversation == c && p < Lower(r.after) ensures u.items[p].message in r.seen {
      CommittedItem(t, a, p);
    }
  }

  /** The commit of an append leaves a reader covered exactly if nothing of it at or below the cursor is new to the reader. */
  lemma AppendCoveredExactly(t: Tables, a: Txn, r: Reader)
    requires TxnInv(t, a) && a.stage.ReadyToAppend? && Covered(t, a.conversation, r)
    ensures Covered(Apply(t, a.writes), a.conversation, r) <==> Harmless(a, r)
  {
    var c, u := a.conversation, Apply(t, a.writes);
    if Harmless(a, r) {
      CommitKeepsCovered(t, a, c, r);
    }
    if Covered(u, c, r) {
      forall q | q in a.writes.items && q < Lower(r.after) ensures a.writes.items[q].message in r.seen {
        CommittedItem(t, a, q);
      }
    }
  }

  lemma CommitCoveredExactly(s: State, x: nat, c: UUID, r: Reader)
    requires Inv(s) && InFlight(s, c, r, false) && Covered(s.db, c, r) && x in s.txns && ReadyToCommit(s.txns[x])
    ensures Covered(Commit(s, x).db, c, r) <==> !Late(s, r, c, Do(Advance(x)))
  {
    var a := s.txns[x];
    assert TxnInv(s.db, a);
    if a.op.Append? && a.conversation == c {
      AppendCoveredExactly(s.db, a, r);
    } else {
      assert IsRewrite(a) ==> Behind(s.db, c, a, r);
      CommitKeepsCovered(s.db, a, c, r);
    }
  }

  /** Of everything that can happen only a late append uncovers a reader. */
  lemma ActCoveredExactly(s: State, r: Reader, c: UUID, a: Action)
    requires Inv(s) && InFlight(s, c, r, false) && Covered(s.db, c, r) && Act(s, r, c, a).Some?
    ensures var (s', r') := Act(s, r, c, a).value; Covered(s'.db, c, r') <==> !Late(s, r, c, a)
  {
    match a
    case Read(size) => ReadKeepsCovered(s.db, c, r, size);
    case Do(e) =>
      if Commits(s, e) {
        CommitCoveredExactly(s, e.x, c, r);
      } else if e.Advance? {
        NextWithoutCommit(s, e.x);
      }
  }

  // ---------------------------------------------------------------- whole sessions

  lemma {:induction false} SessionKeeps(c: UUID, actions: seq<Action>)
    requires Session(c, actions).Some?
    ensures Inv(Session(c, actions).value.0)
  {
    InitialHolds();
    if actions != [] {
      var last := |actions| - 1;
      SessionKeeps(c, actions[..last]);
      if actions[last].Do? {
        StepKeeps(Session(c, actions[..last]).value.0, actions[last].e);
      }
    }
  }

  lemma SoloBefore(c: UUID, actions: seq<Action>, last: nat)
    requires AlwaysSolo(c, actions) && last <= |actions|
    ensures AlwaysSolo(c, actions[..last]) && SoloAfter(c, actions[..last])
  {
    var before := actions[..last];
    forall k | 0 <= k <= last ensures SoloAfter(c, before[..k]) {
      assert before[..k] == actions[..k];
    }
  }

  /** Rewrites never interfere; appends do not either while they are alone. */
  lemma {:induction false} SessionInFlight(c: UUID, actions: seq<Action>, appendsToo: bool)
    requires Session(c, actions).Some? && (appendsToo ==> AlwaysSolo(c, actions))
    ensures InFlight(Session(c, actions).value.0, c, Session(c, actions).value.1, appendsToo)
  {
    if actions != [] {
      var last := |actions| - 1;
      var before := actions[..last];
      if appendsToo {
        SoloBefore(c, actions, last);
      }
      SessionInFlight(c, before, appendsToo);
      SessionKeeps(c, before);
      var (s, r) := Session(c, before).value;
      match actions[last]
      case Do(e) => StepKeepsInFlight(s, e, c, r, appendsToo);
      case Read(size) => ReadKeepsInFlight(s, c, r, size, appendsToo);
    }
  }

  lemma LateSplit(c: UUID, actions: seq<Action>, last: nat)
    requires |actions| == last + 1
    ensures NeverLate(c, actions) <==> NeverLate(c, actions[..last]) && !LateAt(c, actions, last)
  {
    var before := actions[..last];
    forall k | 0 <= k < last ensures LateAt(c, before, k) <==> LateAt(c, actions, k) {
      assert before[..k] == actions[..k];
    }
  }

  lemma CoveredSplit(c: UUID, actions: seq<Action>, last: nat)
    requires |actions| == last + 1
    ensures AlwaysCovered(c, actions) <==> AlwaysCovered(c, actions[..last]) && CoveredAfter(c, actions)
    ensures AlwaysCovered(c, actions[..last]) ==> CoveredAfter(c, actions[..last])
  {
    var before := actions[..last];
    assert actions[..last + 1] == actions && before[..last] == before;
    forall k | 0 <= k <= last ensures CoveredAfter(c, before[..k]) <==> CoveredAfter(c, actions[..k]) {
      assert before[..k] == actions[..k];
    }
  }

  /**
   * Whatever runs between the pages, overlapping appends included: the reader is covered all the way
   * exactly if no append ever commits an item at or below the cursor that no page has returned.
   */
  lemma {:induction false} CoveredExactlyWithoutLateAppends(c: UUID, actions: seq<Action>)
    requires Session(c, actions).Some?
    ensures AlwaysCovered(c, actions) <==> NeverLate(c, actions)
  {
    if actions != [] {
      var last := |actions| - 1;
      var before := actions[..last];
      CoveredExactlyWithoutLateAppends(c, before);
      CoveredSplit(c, actions, last);
      LateSplit(c, actions, last);
      SessionKeeps(c, before);
      SessionInFlight(c, before, false);
      var (s, r) := Session(c, before).value;
      if Covered(s.db, c, r) {
        ActCoveredExactly(s, r, c, actions[last]);
      }
    } else {
      assert actions[..0] == [];
    }
  }

  // ---------------------------------------------------------------- what a finished reader has

  /** What a reader has who follows cursors to the end while nothing changes. */
  function Finally(t: Tables, c: UUID, r: Reader): set<UUID> {
    r.seen + Elements(Rows.Values(Rest(ItemsOf(t.items, c), r.after, t.nextPosition)))
  }

  lemma FinallyListed(t: Tables, c: UUID, r: Reader, p: nat)
    requires ItemsFit(t) && p in t.items && t.items[p].conversation == c && Lower(r.after) <= p
    ensures t.items[p].message in Finally(t, c, r)
  {
    assert ItemFits(t, p);
    var i := RowListed(ItemsOf(t.items, c), Lower(r.after), t.nextPosition, p);
    var rest := Rest(ItemsOf(t.items, c), r.after, t.nextPosition);
    assert Rows.Values(rest)[i] == t.items[p].message;
  }

  lemma SkippedIsLost(t: Tables, c: UUID, r: Reader, p: nat)
    requires ItemsUnique(t.items) && p in t.items && t.items[p].conversation == c && p < Lower(r.after)
    requires t.items[p].message in Finally(t, c, r)
    ensures t.items[p].message in r.seen
  {
    Rows.BetweenIsSelection(ItemsOf(t.items, c), Lower(r.after), t.nextPosition);
  }

  /** From where a reader stands, following the cursors returns the rest of the order exactly if all below is covered. */
  lemma CompleteExactlyWhenCovered(t: Tables, c: UUID, r: Reader)
    requires Consistent(t)
    ensures Elements(Order(t, c)) <= Finally(t, c, r) <==> Covered(t, c, r)
  {
    var m := ItemsOf(t.items, c);
    if Covered(t, c, r) {
      forall id | id in Order(t, c) ensures id in Finally(t, c, r) {
        Rows.OrderedMembers(m, t.nextPosition, id);
        var p :| p in m && m[p] == id;
        if Lower(r.after) <= p {
          FinallyListed(t, c, r, p);
        }
      }
    }
    if Elements(Order(t, c)) <= Finally(t, c, r) {
      forall p | p in t.items && t.items[p].conversation == c && p < Lower(r.after) ensures t.items[p].message in r.seen {
        assert ItemFits(t, p) && m[p] == t.items[p].message;
        Rows.OrderedMembers(m, t.nextPosition, m[p]);
        assert m[p] in Elements(Order(t, c));
        SkippedIsLost(t, c, r, p);
      }
    }
  }

  /** A page without a cursor completes the reader exactly if the reader was covered. */
  lemma LastPageExactly(t: Tables, c: UUID, r: Reader, size: int32)
    requires Consistent(t) && NextPage(t, c, r, size).next.None?
    ensures Elements(Order(t, c)) <= AfterPage(r, NextPage(t, c, r, size)).seen <==> Covered(t, c, r)
  {
    CompleteExactlyWhenCovered(t, c, r);
  }

  /**
   * Appends, replacements and deletions run between the pages of a reader. Unless an append commits
   * late, a page that comes back without a cursor means that every message then in the conversation
   * has been returned by some page.
   */
  lemma NothingMissed(c: UUID, actions: seq<Action>, size: int32)
    requires Session(c, actions).Some? && NeverLate(c, actions)
    requires var (s, r) := Session(c, actions).value; NextPage(s.db, c, r, size).next.None?
    ensures var (s, r) := Session(c, actions).value;
            Elements(Order(s.db, c)) <= AfterPage(r, NextPage(s.db, c, r, size)).seen
  {
    var (s, r) := Session(c, actions).value;
    SessionKeeps(c, actions);
    CoveredExactlyWithoutLateAppends(c, actions);
    assert actions[..|actions|] == actions;
    assert CoveredAfter(c, actions);
    LastPageExactly(s.db, c, r, size);
  }

  /** Appends that insert one at a time are never late. */
  lemma SoloNeverLate(c: UUID, actions: seq<Action>)
    requires AlwaysSolo(c, actions)
    ensures NeverLate(c, actions)
  {
    forall k | 0 <= k < |actions| ensures !LateAt(c, actions, k) {
      if Session(c, actions[..k]).Some? {
        SoloBefore(c, actions, k);
        SessionInFlight(c, actions[..k], true);
        SoloIsHarmless(Session(c, actions[..k]).value.0, Session(c, actions[..k]).value.1, c, actions[k]);
      }
    }
  }

  lemma SoloIsHarmless(s: State, r: Reader, c: UUID, a: Action)
    requires InFlight(s, c, r, true)
    ensures !Late(s, r, c, a)
  {
    if a.Do? && Commits(s, a.e) {
      assert Behind(s.db, c, s.txns[a.e.x], r);
    }
  }

  /** So with commits that follow position order nothing is missed. */
  lemma NothingMissedInOrder(c: UUID, actions: seq<Action>, size: int32)
    requires Session(c, actions).Some? && AlwaysSolo(c, actions)
    requires var (s, r) := Session(c, actions).value; NextPage(s.db, c, r, size).next.None?
    ensures var (s, r) := Session(c, actions).value;
            Elements(Order(s.db, c)) <= AfterPage(r, NextPage(s.db, c, r, size)).seen
  {
    SoloNeverLate(c, actions);
    NothingMissed(c, actions, size);
  }
}
