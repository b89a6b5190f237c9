/**
 * How long a message stays stored over a run, and so when ids that a replacement took out of an order
 * can be inserted again: exactly as long as no deletion has taken them.
 */
module MachineReinsertion {
  import opened Base
  import opened Listings
  import opened Machine
  import opened MachineCommit
  import opened MachineHistory
  import opened MachineInvariant
  import opened MachineReadable
  import opened MachineRuns
  import opened MachineSnapshots
  import opened RangeOps
  import opened Tables

  /** The event commits a deletion whose range holds `m`. */
  ghost predicate Drops(s: State, e: Event, m: UUID) {
    && e.Advance? && e.x in s.txns && ReadyToCommit(s.txns[e.x])
    && s.txns[e.x].stage.ReadyToRewrite? && m in s.txns[e.x].stage.dropped
  }

  ghost predicate DropsAt(s: State, events: seq<Event>, k: nat, m: UUID)
    requires k < |events|
  {
    Run(s, events[..k]).Some? && Drops(Run(s, events[..k]).value, events[k], m)
  }

  ghost predicate NeverDropped(s: State, events: seq<Event>, m: UUID) {
    forall k :: 0 <= k < |events| ==> !DropsAt(s, events, k, m)
  }

  lemma DropsBefore(s: State, events: seq<Event>, last: nat, m: UUID)
    requires |events| == last + 1
    ensures NeverDropped(s, events, m) <==> NeverDropped(s, events[..last], m) && !DropsAt(s, events, last, m)
  {
    var before := events[..last];
    forall k | 0 <= k < last ensures DropsAt(s, before, k, m) <==> DropsAt(s, events, k, m) {
      assert before[..k] == events[..k];
    }
  }

  // ---------------------------------------------------------------- while nothing deletes it

  /** The message is stored after as before, in the same row. */
  ghost predicate Kept(t: Tables, u: Tables, m: UUID) {
    m in t.messages ==> m in u.messages && u.messages[m] == t.messages[m]
  }

  lemma CommitKeepsMessage(t: Tables, u: Tables, a: Txn, m: UUID)
    requires CommitEffect(t, u, a) && (a.stage.ReadyToRewrite? ==> m !in a.stage.dropped)
    ensures Kept(t, u, m)
  {
  }

  /** No step but the commit of a deletion that names it takes a message away. */
  lemma StepKeepsMessage(s: State, e: Event, m: UUID)
    requires Inv(s) && Step(s, e).Some? && !Drops(s, e, m)
    ensures Kept(s.db, Step(s, e).value.db, m)
  {
    StepIsOneOperation(s, e);
    if !Quiet(s.db, Step(s, e).value.db) {
      CommitKeepsMessage(s.db, Step(s, e).value.db, s.txns[e.x], m);
    }
  }

  /** Over any run a stored message stays, in the same row, until a deletion of it commits. */
  lemma {:induction false} StoredUntilDeleted(s: State, events: seq<Event>, m: UUID)
    requires Inv(s) && Run(s, events).Some? && NeverDropped(s, events, m)
    ensures Kept(s.db, Run(s, events).value.db, m)
  {
    if events != [] {
      var last := |events| - 1;
      DropsBefore(s, events, last, m);
      StoredUntilDeleted(s, events[..last], m);
      RunKeeps(s, events[..last]);
      StepKeepsMessage(Run(s, events[..last]).value, events[last], m);
    }
  }

  /**
   * From append to listing: after anything has run in which no deletion of it committed, a listing that
   * shows the message shows it as the append returned it.
   */
  lemma ListedAsAppended(
    s: State, x: nat, i: nat, events: seq<Event>, filter: Filter, size: int32, after: Option<int>, e: Message)
    requires Inv(s) && AllReadable(s) && x in s.txns && s.txns[x].stage.ReadyToAppend?
    requires s.txns[x].op.Append? && i < |s.txns[x].op.ids| == |s.txns[x].op.rows|
    requires Run(Commit(s, x), events).Some? && NeverDropped(Commit(s, x), events, s.txns[x].op.ids[i])
    requires var page := MessagePage(Run(Commit(s, x), events).value.db, s.txns[x].conversation, filter, size, after);
             page.Ok? && e in page.value.entries && e.id == s.txns[x].op.ids[i]
    ensures ToMessage(s.txns[x].op.ids[i], s.txns[x].op.rows[i]) == Some(e)
  {
    var s1 := Commit(s, x);
    var r := Run(s1, events).value;
    AppendedRow(s, x, i);
    CommitKeeps(s, x);
    CommitReadable(s, x);
    StoredUntilDeleted(s1, events, s.txns[x].op.ids[i]);
    RunKeeps(s1, events);
    RunReadable(s1, events);
    RowsReadableIsReadable(r.db);
    ListedIsStored(r.db, s.txns[x].conversation, filter, size, after, e);
  }

  // ---------------------------------------------------------------- once it is deleted

  lemma RewriteRemoves(t: Tables, u: Tables, a: Txn, m: UUID)
    requires Rewritten(t, u, a) && m in a.stage.dropped
    ensures m !in u.messages
  {
    assert m in Elements(a.stage.dropped);
  }

  lemma DropRemoves(s: State, e: Event, m: UUID)
    requires Inv(s) && Step(s, e).Some? && Drops(s, e, m)
    ensures m !in Step(s, e).value.db.messages
  {
    RewriteCommits(s.db, s.txns[e.x]);
    RewriteRemoves(s.db, Step(s, e).value.db, s.txns[e.x], m);
  }

  lemma {:induction false} GoneOnceDeleted(s: State, events: seq<Event>, m: UUID)
    requires Inv(s) && Run(s, events).Some? && NeverDrawn(s, events, m) && !NeverDropped(s, events, m)
    ensures m !in Run(s, events).value.db.messages
  {
    var last := |events| - 1;
    var before, e := events[..last], events[last];
    DropsBefore(s, events, last, m);
    RunKeeps(s, before);
    var r := Run(s, before).value;
    if Drops(r, e, m) {
      DropRemoves(r, e, m);
    } else {
      assert NeverDrawn(s, before, m);
      GoneOnceDeleted(s, before, m);
      MessagesOnlyVanish(s, before, m);
      assert [e][0] == e;
      StepOnlyVanishes(r, e, m);
    }
  }

  /** With identifiers that are not drawn twice, a message is still stored exactly if no deletion of it has committed. */
  lemma StoredExactlyUntilDeleted(s: State, events: seq<Event>, m: UUID)
    requires Inv(s) && Run(s, events).Some? && NeverDrawn(s, events, m) && m in s.db.messages
    ensures m in Run(s, events).value.db.messages <==> NeverDropped(s, events, m)
  {
    if NeverDropped(s, events, m) {
      StoredUntilDeleted(s, events, m);
    } else {
      GoneOnceDeleted(s, events, m);
    }
  }

  // ---------------------------------------------------------------- inserting again

  /** A replacement that has read its order, whose bounds fit and whose new order would have no repeat. */
  ghost predicate Fitting(r: State, y: nat) {
    && y in r.txns && r.txns[y].op.Replace? && r.txns[y].stage.OrderRead?
    && var order, spec := r.txns[y].stage.order, r.txns[y].op.replaceSpec;
       var bounds := ReplaceBounds(order, spec);
       bounds.Ok? && NoDup(order[..bounds.value.0] + spec.insertIDs + order[bounds.value.1..])
  }

  /** Only the existence of the inserted messages is left to decide it. */
  lemma FittingDecides(r: State, y: nat)
    requires Fitting(r, y)
    ensures Next(r, y).Some? <==> Elements(r.txns[y].op.replaceSpec.insertIDs) <= StoredIDs(r.db, r.txns[y].conversation)
    ensures Next(r, y).Some? ==>
              var order, spec, bounds := r.txns[y].stage.order, r.txns[y].op.replaceSpec,
                                         ReplaceBounds(r.txns[y].stage.order, r.txns[y].op.replaceSpec).value;
              Next(r, y).value.txns[y].stage == Planned(order[..bounds.0] + spec.insertIDs + order[bounds.1..], [])
  {
  }

  lemma StillOwn(s: State, events: seq<Event>, c: UUID, m: UUID)
    requires Inv(s) && Run(s, events).Some? && NeverDrawn(s, events, m) && m in StoredIDs(s.db, c)
    ensures m in StoredIDs(Run(s, events).value.db, c) <==> NeverDropped(s, events, m)
  {
    StoredExactlyUntilDeleted(s, events, m);
    if NeverDropped(s, events, m) {
      StoredUntilDeleted(s, events, m);
    }
  }

  /**
   * After a replacement has committed and anything has run, a fitting replacement that inserts ids
   * the first one took out is accepted exactly if no deletion of any of them has committed since.
   */
  lemma RemovedCanReturn(s: State, x: nat, events: seq<Event>, y: nat)
    requires Inv(s) && x in s.txns && s.txns[x].op.Replace? && ReadyToCommit(s.txns[x])
    requires Run(Commit(s, x), events).Some?
    requires var r := Run(Commit(s, x), events).value;
             && Fitting(r, y) && r.txns[y].conversation == s.txns[x].conversation
             && forall m :: m in r.txns[y].op.replaceSpec.insertIDs ==>
                  m in Removed(s, x) && NeverDrawn(Commit(s, x), events, m)
    ensures var r := Run(Commit(s, x), events).value;
            Next(r, y).Some? <==>
              forall m :: m in r.txns[y].op.replaceSpec.insertIDs ==> NeverDropped(Commit(s, x), events, m)
  {
    var s1, r, c := Commit(s, x), Run(Commit(s, x), events).value, s.txns[x].conversation;
    var ids := r.txns[y].op.replaceSpec.insertIDs;
    CommitKeeps(s, x);
    FittingDecides(r, y);
    forall m | m in ids ensures m in StoredIDs(r.db, c) <==> NeverDropped(s1, events, m) {
      RemovedIsStored(s, x, m);
      StillOwn(s1, events, c, m);
    }
  }

  /** The ids that the replacement of transaction `x` takes out of the order, as its result names them. */
  ghost function Removed(s: State, x: nat): seq<UUID>
    requires x in s.txns && s.txns[x].op.Replace?
  {
    var a := s.txns[x];
    var outcome := ReplaceOutcome(Order(s.db, a.conversation), StoredIDs(s.db, a.conversation), a.op.replaceSpec);
    if outcome.Ok? then outcome.value.replaced else []
  }

  lemma RemovedIsStored(s: State, x: nat, m: UUID)
    requires Inv(s) && x in s.txns && s.txns[x].op.Replace? && ReadyToCommit(s.txns[x]) && m in Removed(s, x)
    ensures m in StoredIDs(Commit(s, x).db, s.txns[x].conversation)
  {
    var c := s.txns[x].conversation;
    OrderSound(s.db, c);
    assert m in Order(s.db, c);
    assert m in Elements(Order(s.db, c));
    ReplacedStaysStored(s, x, c);
  }
}
