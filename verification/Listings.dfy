/** The listings of conversations and snapshots as pages of the tables (internal/state/list.go, internal/state/snapshot.go). */
module Listings {
  import opened Base
  import opened Paging
  import Rows
  import opened Tables

  datatype Filter = Filter(roles: seq<int16>, kinds: seq<string>)

  const NO_FILTER := Filter([], [])

  datatype StoredMessage = StoredMessage(id: UUID, row: MessageRow)

  /** An empty list of roles or kinds means no restriction. */
  predicate Admits(filter: Filter, row: MessageRow) {
    && (filter.roles == [] || row.role in filter.roles)
    && (filter.kinds == [] || row.kind in filter.kinds)
  }

  /** conversation_items JOIN messages, for one conversation. */
  function Joined(t: Tables, c: UUID): map<nat, StoredMessage> {
    map p | p in t.items && t.items[p].conversation == c && t.items[p].message in t.messages
      :: StoredMessage(t.items[p].message, t.messages[t.items[p].message])
  }

  function ByFilter(filter: Filter): StoredMessage -> bool {
    (s: StoredMessage) => Admits(filter, s.row)
  }

  function Selected(t: Tables, c: UUID, filter: Filter): map<nat, StoredMessage> {
    Where(Joined(t, c), ByFilter(filter))
  }

  function MessageDomain(s: StoredMessage): Option<Message> {
    ToMessage(s.id, s.row)
  }

  function Itself(id: UUID): Option<UUID> {
    Some(id)
  }

  function ItemID(item: SnapshotItem): Option<UUID> {
    Some(item.message)
  }

  function ItemDomain(c: UUID): SnapshotItem -> Option<Message> {
    (item: SnapshotItem) => SnapshotMessage(c, item)
  }

  function MessagePage(t: Tables, c: UUID, filter: Filter, size: int32, after: Option<int>): Result<Listing<Message>> {
    if c !in t.conversations then Err(ConversationNotFound)
    else Convert(PageOf(Selected(t, c, filter), after, size, t.nextPosition), MessageDomain)
  }

  function IDPage(t: Tables, c: UUID, size: int32, after: Option<int>): Result<Listing<UUID>> {
    if c !in t.conversations then Err(ConversationNotFound)
    else Convert(PageOf(ItemsOf(t.items, c), after, size, t.nextPosition), Itself)
  }

  function SnapshotPage(t: Tables, s: UUID, size: int32, after: Option<int>): Result<Listing<Message>> {
    if s !in t.snapshots then Err(SnapshotNotFound)
    else
      var row := t.snapshots[s];
      Convert(PageOf(row.items, after, size, |row.items|), ItemDomain(row.conversation))
  }

  function SnapshotIDPage(t: Tables, s: UUID, size: int32, after: Option<int>): Result<Listing<UUID>> {
    if s !in t.snapshots then Err(SnapshotNotFound)
    else
      var items := t.snapshots[s].items;
      Convert(PageOf(items, after, size, |items|), ItemID)
  }

  function WithMetadata<T>(metadata: Metadata, page: Result<Listing<T>>): Result<(Metadata, Listing<T>)> {
    match page
    case Ok(listing) => Ok((metadata, listing))
    case Err(e) => Err(e)
  }

  // ---------------------------------------------------------------- what is listed

  /** Every row a listing can meet converts. */
  ghost predicate Convertible<V, T>(m: map<nat, V>, toDomain: V -> Option<T>) {
    forall p :: p in m ==> toDomain(m[p]).Some?
  }

  lemma PageConverts<V, T>(m: map<nat, V>, toDomain: V -> Option<T>, after: Option<int>, size: int32, hi: nat)
    requires Convertible(m, toDomain)
    ensures Convert(PageOf(m, after, size, hi), toDomain).Ok?
  {
    Rows.BetweenIsSelection(m, Lower(after), hi);
  }

  lemma ItemIDsConvert(page: Page<SnapshotItem>)
    ensures Convert(page, ItemID).Ok?
  {
  }

  lemma SelectedConvertible(t: Tables, c: UUID, filter: Filter)
    requires Readable(t)
    ensures Convertible(Selected(t, c, filter), MessageDomain)
  {
  }

  lemma SnapshotConvertible(t: Tables, s: UUID)
    requires Readable(t) && s in t.snapshots
    ensures Convertible(t.snapshots[s].items, ItemDomain(t.snapshots[s].conversation))
  {
  }

  /** On readable tables a listing fails only when its conversation or snapshot does not exist. */
  lemma ListingsNeverFail(t: Tables, id: UUID, filter: Filter, size: int32, after: Option<int>)
    requires Readable(t)
    ensures MessagePage(t, id, filter, size, after).Ok? <==> id in t.conversations
    ensures SnapshotPage(t, id, size, after).Ok? <==> id in t.snapshots
  {
    SelectedConvertible(t, id, filter);
    PageConverts(Selected(t, id, filter), MessageDomain, after, size, t.nextPosition);
    if id in t.snapshots {
      var row := t.snapshots[id];
      SnapshotConvertible(t, id);
      PageConverts(row.items, ItemDomain(row.conversation), after, size, |row.items|);
    }
  }

  function MessageID(s: StoredMessage): UUID {
    s.id
  }

  /** The join loses no item and adds none; without a filter all are selected. */
  lemma JoinMirrorsItems(t: Tables, c: UUID)
    requires ItemsFit(t)
    ensures Selected(t, c, NO_FILTER) == Joined(t, c)
    ensures Mirrors(Joined(t, c), ItemsOf(t.items, c), MessageID)
  {
    var m, n := Joined(t, c), ItemsOf(t.items, c);
    forall p ensures p in m <==> p in n {
      assert p in t.items ==> ItemFits(t, p);
    }
  }

  /** The unfiltered listing runs through the order of the conversation; a filter keeps a subsequence of it. */
  lemma ListedIsOrder(t: Tables, c: UUID, filter: Filter)
    requires ItemsFit(t)
    ensures var all := Rest(Joined(t, c), None, t.nextPosition);
            && Rows.Values(Image(all, MessageID)) == Order(t, c)
            && Rest(Selected(t, c, filter), None, t.nextPosition) == Matching(all, ByFilter(filter))
  {
    JoinMirrorsItems(t, c);
    MirrorRows(Joined(t, c), ItemsOf(t.items, c), MessageID, 0, t.nextPosition);
    FilterKeepsOrder(Joined(t, c), ByFilter(filter), 0, t.nextPosition);
  }

  function IDs(messages: seq<Message>): seq<UUID> {
    seq(|messages|, i requires 0 <= i < |messages| => messages[i].id)
  }

  /** Pages whose entries name the same ids convert to listings that name the same ids. */
  lemma SameIDs<V, W>(page: Page<V>, ids: Page<W>, toDomain: V -> Option<Message>, toID: W -> Option<UUID>)
    requires Convert(page, toDomain).Ok? && ids.next == page.next && |ids.rows| == |page.rows|
    requires forall i :: 0 <= i < |page.rows| ==> toID(ids.rows[i].value) == Some(toDomain(page.rows[i].value).value.id)
    ensures Convert(ids, toID) == Ok(Listing(IDs(Convert(page, toDomain).value.entries), page.next))
  {
    var entries := Convert(page, toDomain).value.entries;
    assert forall i :: 0 <= i < |page.rows| ==> entries[i] == toDomain(page.rows[i].value).value;
    assert Convert(ids, toID).Ok?;
    assert Convert(ids, toID).value.entries == IDs(entries);
  }

  /** The unfiltered message listing and the id listing agree page by page: same ids, same cursor. */
  lemma ListingsAgree(t: Tables, c: UUID, size: int32, after: Option<int>)
    requires ItemsFit(t) && Readable(t) && c in t.conversations
    ensures MessagePage(t, c, NO_FILTER, size, after).Ok?
    ensures var page := MessagePage(t, c, NO_FILTER, size, after).value;
            IDPage(t, c, size, after) == Ok(Listing(IDs(page.entries), page.next))
  {
    ListingsNeverFail(t, c, NO_FILTER, size, after);
    JoinMirrorsItems(t, c);
    MirrorPages(Joined(t, c), ItemsOf(t.items, c), MessageID, after, size, t.nextPosition);
    var page := PageOf(Joined(t, c), after, size, t.nextPosition);
    var ids := PageOf(ItemsOf(t.items, c), after, size, t.nextPosition);
    forall i | 0 <= i < |page.rows|
      ensures Itself(ids.rows[i].value) == Some(MessageDomain(page.rows[i].value).value.id)
    {
      assert MessageDomain(page.rows[i].value).Some?;
      assert ids.rows == Image(page.rows, MessageID);
      assert ids.rows[i].value == MessageID(page.rows[i].value);
    }
    SameIDs(page, ids, MessageDomain, Itself);
  }

  lemma SnapshotListingsAgree(t: Tables, s: UUID, size: int32, after: Option<int>)
    requires Readable(t) && s in t.snapshots
    ensures SnapshotPage(t, s, size, after).Ok?
    ensures var page := SnapshotPage(t, s, size, after).value;
            SnapshotIDPage(t, s, size, after) == Ok(Listing(IDs(page.entries), page.next))
  {
    ListingsNeverFail(t, s, NO_FILTER, size, after);
    var row := t.snapshots[s];
    var page := PageOf(row.items, after, size, |row.items|);
    SameIDs(page, page, ItemDomain(row.conversation), ItemID);
  }

  // ---------------------------------------------------------------- what a page shows

  /** The message is stored, and the filter's roles and kinds, where it gives any, include its own. */
  ghost predicate Wanted(t: Tables, filter: Filter, id: UUID) {
    && id in t.messages
    && (filter.roles != [] ==> exists i :: 0 <= i < |filter.roles| && filter.roles[i] == t.messages[id].role)
    && (filter.kinds != [] ==> exists i :: 0 <= i < |filter.kinds| && filter.kinds[i] == t.messages[id].kind)
  }

  /** The positions of the conversation's wanted messages behind the cursor. */
  ghost function WantedBehind(t: Tables, c: UUID, filter: Filter, after: Option<int>): set<nat> {
    set p | p in t.items && t.items[p].conversation == c && (after.None? || p > after.value)
            && Wanted(t, filter, t.items[p].message)
  }

  ghost function ItemsBehind(t: Tables, c: UUID, after: Option<int>): set<nat> {
    set p | p in t.items && t.items[p].conversation == c && (after.None? || p > after.value)
  }

  ghost function IndicesBehind(items: map<nat, SnapshotItem>, after: Option<int>): set<nat> {
    set p | p in items && (after.None? || p > after.value)
  }

  lemma SelectedIsWanted(t: Tables, c: UUID, filter: Filter, after: Option<int>)
    ensures PositionsBehind(Selected(t, c, filter), after) == WantedBehind(t, c, filter, after)
    ensures forall p :: p in Selected(t, c, filter) ==>
              && p in t.items && t.items[p].conversation == c && t.items[p].message in t.messages
              && Selected(t, c, filter)[p] == StoredMessage(t.items[p].message, t.messages[t.items[p].message])
  {
  }

  /** A converted page shows, in order, the rows at the first positions behind the cursor. */
  ghost predicate ShowsPage<V, T>(
    ps: seq<nat>, listing: Listing<T>, m: map<nat, V>, toDomain: V -> Option<T>, behind: set<nat>, size: int32)
  {
    && IsPage(ps, listing.next, behind, size) && |listing.entries| == |ps|
    && forall k :: 0 <= k < |ps| ==> ps[k] in m && toDomain(m[ps[k]]) == Some(listing.entries[k])
  }

  lemma ConvertedPage<V, T>(m: map<nat, V>, toDomain: V -> Option<T>, after: Option<int>, size: int32, hi: nat) returns (ps: seq<nat>)
    requires (forall p :: p in m ==> p < hi) && Convert(PageOf(m, after, size, hi), toDomain).Ok?
    ensures ShowsPage(ps, Convert(PageOf(m, after, size, hi), toDomain).value, m, toDomain, PositionsBehind(m, after), size)
  {
    var page := PageOf(m, after, size, hi);
    ps := Positions(page.rows);
    PageIsFirst(m, after, size, hi);
    ConvertsTo(page, toDomain);
    forall k | 0 <= k < |ps| ensures ps[k] in m && toDomain(m[ps[k]]) == Some(Convert(page, toDomain).value.entries[k]) {
      assert ps[k] == page.rows[k].position;
    }
  }

  /** A page of messages: the first wanted ones behind the cursor, each exactly as it is stored. */
  lemma MessagePageShows(t: Tables, c: UUID, filter: Filter, size: int32, after: Option<int>) returns (ps: seq<nat>)
    requires ItemsFit(t) && Readable(t) && c in t.conversations
    ensures MessagePage(t, c, filter, size, after).Ok?
    ensures var page := MessagePage(t, c, filter, size, after).value;
            && IsPage(ps, page.next, WantedBehind(t, c, filter, after), size) && |page.entries| == |ps|
            && forall k :: 0 <= k < |ps| ==>
                 && ps[k] in t.items && t.items[ps[k]].message in t.messages
                 && ToMessage(t.items[ps[k]].message, t.messages[t.items[ps[k]].message]) == Some(page.entries[k])
  {
    var m := Selected(t, c, filter);
    ListingsNeverFail(t, c, filter, size, after);
    SelectedIsWanted(t, c, filter, after);
    forall p | p in m ensures p < t.nextPosition { assert ItemFits(t, p); }
    ps := ConvertedPage(m, MessageDomain, after, size, t.nextPosition);
    forall k | 0 <= k < |ps|
      ensures ps[k] in t.items && t.items[ps[k]].message in t.messages
      ensures ToMessage(t.items[ps[k]].message, t.messages[t.items[ps[k]].message]) ==
              Some(MessagePage(t, c, filter, size, after).value.entries[k])
    {
      assert MessageDomain(m[ps[k]]) == ToMessage(m[ps[k]].id, m[ps[k]].row);
    }
  }

  lemma ConvertsTo<V, T>(page: Page<V>, toDomain: V -> Option<T>)
    requires Convert(page, toDomain).Ok?
    ensures var listing := Convert(page, toDomain).value;
            && listing.next == page.next && |listing.entries| == |page.rows|
            && forall k :: 0 <= k < |page.rows| ==> toDomain(page.rows[k].value) == Some(listing.entries[k])
  {
  }

  /** A page of ids: the first ones behind the cursor. */
  lemma IDPageShows(t: Tables, c: UUID, size: int32, after: Option<int>) returns (ps: seq<nat>)
    requires ItemsFit(t) && c in t.conversations
    ensures IDPage(t, c, size, after).Ok?
    ensures var page := IDPage(t, c, size, after).value;
            && IsPage(ps, page.next, ItemsBehind(t, c, after), size) && |page.entries| == |ps|
            && forall k :: 0 <= k < |ps| ==> ps[k] in t.items && t.items[ps[k]].message == page.entries[k]
  {
    var m := ItemsOf(t.items, c);
    assert PositionsBehind(m, after) == ItemsBehind(t, c, after);
    forall p | p in m ensures p < t.nextPosition { assert ItemFits(t, p); }
    ps := ConvertedPage(m, Itself, after, size, t.nextPosition);
    forall k | 0 <= k < |ps| ensures ps[k] in t.items && t.items[ps[k]].message == IDPage(t, c, size, after).value.entries[k] {
      assert Itself(m[ps[k]]) == Some(m[ps[k]]);
    }
  }

  lemma ItemDomainIs(c: UUID, item: SnapshotItem)
    ensures ItemDomain(c)(item) == SnapshotMessage(c, item)
  {
  }

  /** A page of a snapshot: the first copies behind the cursor. */
  lemma SnapshotPageShows(t: Tables, s: UUID, size: int32, after: Option<int>) returns (ps: seq<nat>)
    requires SnapshotsFit(t) && Readable(t) && s in t.snapshots
    ensures SnapshotPage(t, s, size, after).Ok?
    ensures var row, page := t.snapshots[s], SnapshotPage(t, s, size, after).value;
            && IsPage(ps, page.next, IndicesBehind(row.items, after), size) && |page.entries| == |ps|
            && forall k :: 0 <= k < |ps| ==>
                 ps[k] in row.items && SnapshotMessage(row.conversation, row.items[ps[k]]) == Some(page.entries[k])
  {
    var row := t.snapshots[s];
    ListingsNeverFail(t, s, NO_FILTER, size, after);
    assert SnapshotFits(t, row);
    ps := CopiesPage(row.items, row.conversation, size, after);
  }

  lemma CopiesPage(items: map<nat, SnapshotItem>, c: UUID, size: int32, after: Option<int>) returns (ps: seq<nat>)
    requires forall i: nat :: i in items <==> i < |items|
    requires Convert(PageOf(items, after, size, |items|), ItemDomain(c)).Ok?
    ensures var listing := Convert(PageOf(items, after, size, |items|), ItemDomain(c)).value;
            && IsPage(ps, listing.next, IndicesBehind(items, after), size) && |listing.entries| == |ps|
            && forall k :: 0 <= k < |ps| ==> ps[k] in items && SnapshotMessage(c, items[ps[k]]) == Some(listing.entries[k])
  {
    assert PositionsBehind(items, after) == IndicesBehind(items, after);
    ps := ConvertedPage(items, ItemDomain(c), after, size, |items|);
    forall k | 0 <= k < |ps| ensures SnapshotMessage(c, items[ps[k]]) == ItemDomain(c)(items[ps[k]]) {
      ItemDomainIs(c, items[ps[k]]);
    }
  }

  lemma SnapshotIDPageShows(t: Tables, s: UUID, size: int32, after: Option<int>) returns (ps: seq<nat>)
    requires SnapshotsFit(t) && s in t.snapshots
    ensures SnapshotIDPage(t, s, size, after).Ok?
    ensures var row, page := t.snapshots[s], SnapshotIDPage(t, s, size, after).value;
            && IsPage(ps, page.next, IndicesBehind(row.items, after), size) && |page.entries| == |ps|
            && forall k :: 0 <= k < |ps| ==> ps[k] in row.items && row.items[ps[k]].message == page.entries[k]
  {
    var row := t.snapshots[s];
    assert SnapshotFits(t, row);
    assert PositionsBehind(row.items, after) == IndicesBehind(row.items, after);
    ItemIDsConvert(PageOf(row.items, after, size, |row.items|));
    ps := ConvertedPage(row.items, ItemID, after, size, |row.items|);
    forall k | 0 <= k < |ps|
      ensures ps[k] in row.items && row.items[ps[k]].message == SnapshotIDPage(t, s, size, after).value.entries[k]
    {
      assert ItemID(row.items[ps[k]]) == Some(row.items[ps[k]].message);
    }
  }

  /** So a listed message is the stored one. */
  lemma ListedIsStored(t: Tables, c: UUID, filter: Filter, size: int32, after: Option<int>, e: Message)
    requires ItemsFit(t) && Readable(t) && c in t.conversations
    requires MessagePage(t, c, filter, size, after).Ok? && e in MessagePage(t, c, filter, size, after).value.entries
    ensures e.id in t.messages && ToMessage(e.id, t.messages[e.id]) == Some(e) && Wanted(t, filter, e.id)
  {
    var ps := MessagePageShows(t, c, filter, size, after);
    var k :| 0 <= k < |ps| && MessagePage(t, c, filter, size, after).value.entries[k] == e;
    assert ps[k] in WantedBehind(t, c, filter, after);
  }

  // ---------------------------------------------------------------- the whole of a conversation

  /** The ids whose messages are wanted, in the same order. */
  ghost function OnlyWanted(t: Tables, filter: Filter, ids: seq<UUID>): seq<UUID> {
    if ids == [] then []
    else
      var last := |ids| - 1;
      OnlyWanted(t, filter, ids[..last]) + if Wanted(t, filter, ids[last]) then [ids[last]] else []
  }

  /** The messages are exactly those stored under the ids. */
  ghost predicate Shows(t: Tables, ids: seq<UUID>, messages: seq<Message>) {
    && |messages| == |ids|
    && forall k :: 0 <= k < |ids| ==> ids[k] in t.messages && ToMessage(ids[k], t.messages[ids[k]]) == Some(messages[k])
  }

  lemma {:induction false} UnfilteredWantsAll(t: Tables, ids: seq<UUID>)
    requires forall id :: id in ids ==> id in t.messages
    ensures OnlyWanted(t, NO_FILTER, ids) == ids
  {
    if ids != [] {
      var last := |ids| - 1;
      UnfilteredWantsAll(t, ids[..last]);
      assert ids == ids[..last] + [ids[last]];
    }
  }

  ghost predicate AllStored(t: Tables, rows: seq<Rows.Row<StoredMessage>>) {
    forall i :: 0 <= i < |rows| ==> rows[i].value.id in t.messages && rows[i].value.row == t.messages[rows[i].value.id]
  }

  function RowIDs(rows: seq<Rows.Row<StoredMessage>>): seq<UUID> {
    seq(|rows|, i requires 0 <= i < |rows| => rows[i].value.id)
  }

  /** Dropping rows that do not match leaves the ids that are wanted. */
  lemma {:induction false} MatchingIsWanted(t: Tables, filter: Filter, rows: seq<Rows.Row<StoredMessage>>)
    requires AllStored(t, rows)
    ensures AllStored(t, Matching(rows, ByFilter(filter)))
    ensures RowIDs(Matching(rows, ByFilter(filter))) == OnlyWanted(t, filter, RowIDs(rows))
  {
    if rows != [] {
      var last := |rows| - 1;
      MatchingIsWanted(t, filter, rows[..last]);
      assert RowIDs(rows)[..last] == RowIDs(rows[..last]);
      assert RowIDs(rows)[last] == rows[last].value.id;
    }
  }

  lemma RowIDsAreValues(rows: seq<Rows.Row<StoredMessage>>)
    ensures RowIDs(rows) == Rows.Values(Image(rows, MessageID))
  {
    forall i | 0 <= i < |rows| ensures RowIDs(rows)[i] == Rows.Values(Image(rows, MessageID))[i] {
      assert Image(rows, MessageID)[i].value == MessageID(rows[i].value);
    }
  }

  /** All rows a filter selects are, in order, the wanted messages of the order as they are stored. */
  lemma SelectedRowsAreWanted(t: Tables, c: UUID, filter: Filter)
    requires ItemsFit(t)
    ensures var rows := Rows.Between(Selected(t, c, filter), 0, t.nextPosition);
            AllStored(t, rows) && RowIDs(rows) == OnlyWanted(t, filter, Order(t, c))
  {
    var all := Rows.Between(Joined(t, c), 0, t.nextPosition);
    ListedIsOrder(t, c, filter);
    Rows.BetweenIsSelection(Joined(t, c), 0, t.nextPosition);
    forall i | 0 <= i < |all| ensures all[i].value.id in t.messages && all[i].value.row == t.messages[all[i].value.id] {
      assert all[i].position in Joined(t, c);
    }
    RowIDsAreValues(all);
    MatchingIsWanted(t, filter, all);
  }
}
