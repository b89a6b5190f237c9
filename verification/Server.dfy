/**
 * Page tokens at the boundary (internal/server/server.go): the token of a request becomes a cursor,
 * the cursor of a page becomes the token of the response, and a client passes tokens back unchanged.
 */
module Server {
  import opened AppendOutcome
  import opened Base
  import opened Listings
  import opened Outcomes
  import opened PageToken
  import opened Paging
  import Rows
  import opened Tables

  datatype Response<+T> = Response(entries: seq<T>, nextPageToken: string)

  /** No token, a token that does not decode, one made for something else, or a position. */
  function Cursor(kind: Kind, id: UUID, token: string): Result<Option<int>> {
    if token == "" then Ok(None)
    else match Decode(kind, token)
      case None => Err(InvalidPageToken)
      case Some((owner, position)) => if owner != id then Err(PageTokenMismatch) else Ok(Some(position))
  }

  /** Positions and indices are non-negative and fit an int64. */
  predicate Fits64(next: Option<int>) {
    next.Some? ==> 0 <= next.value <= MAX_INT64
  }

  predicate ListingFits<T>(page: Result<Listing<T>>) {
    page.Ok? ==> Fits64(page.value.next)
  }

  function TokenOf(kind: Kind, id: UUID, next: Option<int>): string
    requires Fits64(next)
  {
    if next.None? then "" else Encode(kind, id, next.value)
  }

  /** The request with a cursor in place of its token, and the response with a token in place of its cursor. */
  function Respond<T>(kind: Kind, id: UUID, token: string, page: Option<int> -> Result<Listing<T>>): Result<Response<T>>
    requires forall after :: ListingFits(page(after))
  {
    match Cursor(kind, id, token)
    case Err(e) => Err(e)
    case Ok(after) =>
      assert ListingFits(page(after));
      match page(after)
      case Err(e) => Err(e)
      case Ok(listing) => Ok(Response(listing.entries, TokenOf(kind, id, listing.next)))
  }

  function ListConversationMessages(t: Tables, c: UUID, filter: Filter, size: int32, token: string): Result<Response<Message>>
    requires ItemsFit(t)
  {
    ConversationPagesFit(t, c, filter, size);
    Respond(CONVERSATION, c, token, after => MessagePage(t, c, filter, size, after))
  }

  function ListConversationMessageIDs(t: Tables, c: UUID, size: int32, token: string): Result<Response<UUID>>
    requires ItemsFit(t)
  {
    ConversationPagesFit(t, c, NO_FILTER, size);
    Respond(CONVERSATION, c, token, after => IDPage(t, c, size, after))
  }

  function ListSnapshotMessages(t: Tables, s: UUID, size: int32, token: string): Result<Response<Message>>
    requires SnapshotsFit(t)
  {
    SnapshotPagesFit(t, s, size);
    Respond(SNAPSHOT, s, token, after => SnapshotPage(t, s, size, after))
  }

  function ListSnapshotMessageIDs(t: Tables, s: UUID, size: int32, token: string): Result<Response<UUID>>
    requires SnapshotsFit(t)
  {
    SnapshotPagesFit(t, s, size);
    Respond(SNAPSHOT, s, token, after => SnapshotIDPage(t, s, size, after))
  }

  // ---------------------------------------------------------------- positions

  ghost predicate Positions64<V>(m: map<nat, V>) {
    forall p :: p in m ==> p <= MAX_INT64
  }

  lemma PageFits<V>(m: map<nat, V>, after: Option<int>, size: int32, hi: nat)
    requires Positions64(m)
    ensures Fits64(PageOf(m, after, size, hi).next)
  {
    Rows.BetweenIsSelection(m, Lower(after), hi);
  }

  lemma ConversationPositions(t: Tables, c: UUID, filter: Filter)
    requires ItemsFit(t)
    ensures Positions64(Selected(t, c, filter)) && Positions64(ItemsOf(t.items, c))
  {
    forall p | p in t.items ensures p <= MAX_INT64 { assert ItemFits(t, p); }
  }

  lemma SnapshotPositions(t: Tables, s: UUID)
    requires SnapshotsFit(t) && s in t.snapshots
    ensures Positions64(t.snapshots[s].items)
  {
    assert SnapshotFits(t, t.snapshots[s]);
  }

  lemma ConversationPagesFit(t: Tables, c: UUID, filter: Filter, size: int32)
    requires ItemsFit(t)
    ensures forall after :: ListingFits(MessagePage(t, c, filter, size, after)) && ListingFits(IDPage(t, c, size, after))
  {
    ConversationPositions(t, c, filter);
    forall after ensures ListingFits(MessagePage(t, c, filter, size, after)) && ListingFits(IDPage(t, c, size, after)) {
      PageFits(Selected(t, c, filter), after, size, t.nextPosition);
      PageFits(ItemsOf(t.items, c), after, size, t.nextPosition);
    }
  }

  lemma SnapshotPagesFit(t: Tables, s: UUID, size: int32)
    requires SnapshotsFit(t)
    ensures forall after :: ListingFits(SnapshotPage(t, s, size, after)) && ListingFits(SnapshotIDPage(t, s, size, after))
  {
    forall after ensures ListingFits(SnapshotPage(t, s, size, after)) && ListingFits(SnapshotIDPage(t, s, size, after)) {
      if s in t.snapshots {
        SnapshotPositions(t, s);
        PageFits(t.snapshots[s].items, after, size, |t.snapshots[s].items|);
      }
    }
  }

  // ---------------------------------------------------------------- tokens

  ghost predicate Known(kind: Kind) {
    kind == CONVERSATION || kind == SNAPSHOT
  }

  lemma DecodedCursor(kind: Kind, id: UUID, token: string, owner: UUID, position: int64)
    requires token != "" && Decode(kind, token) == Some((owner, position))
    ensures Cursor(kind, id, token) == if owner == id then Ok(Some(position)) else Err(PageTokenMismatch)
  {
  }

  /** A response's token is a request's cursor. */
  lemma CursorOfToken(kind: Kind, id: UUID, next: Option<int>)
    requires Known(kind) && Fits64(next)
    ensures Cursor(kind, id, TokenOf(kind, id, next)) == Ok(next)
    ensures TokenOf(kind, id, next) == "" <==> next.None?
  {
    if next.Some? {
      var token := Encode(kind, id, next.value);
      TokenRoundTrip(kind, id, next.value);
      DecodedCursor(kind, id, token, id, next.value);
    }
  }

  /** A token issued for anything else, of the same kind or the other, is refused. */
  lemma ForeignTokenRefused(kind: Kind, id: UUID, other: Kind, owner: UUID, position: int64)
    requires Known(kind) && Known(other) && (kind, id) != (other, owner)
    ensures Cursor(kind, id, Encode(other, owner, position)) == Err(if kind == other then PageTokenMismatch else InvalidPageToken)
  {
    TokenRoundTrip(other, owner, position);
    if kind != other {
      TokenKindsDisjoint(kind, other, owner, position);
    }
  }

  // ---------------------------------------------------------------- a client

  /** Sends the token of each response with the next request until an error or an empty token. */
  function Client<T>(endpoint: (int32, string) -> Result<Response<T>>, sizes: seq<int32>, token: string): seq<Result<Response<T>>>
    decreases |sizes|
  {
    if sizes == [] then []
    else
      var response := endpoint(sizes[0], token);
      [response] +
      if response.Ok? && response.value.nextPageToken != "" then
        Client(endpoint, sizes[1..], response.value.nextPageToken)
      else []
  }

  function Received<T>(responses: seq<Result<Response<T>>>): seq<T> {
    if responses == [] then []
    else (if responses[0].Ok? then responses[0].value.entries else []) + Received(responses[1..])
  }

  ghost predicate AllConvert<V, T>(rows: seq<Rows.Row<V>>, toDomain: V -> Option<T>) {
    forall i :: 0 <= i < |rows| ==> toDomain(rows[i].value).Some?
  }

  ghost function Converted<V, T>(rows: seq<Rows.Row<V>>, toDomain: V -> Option<T>): seq<T>
    requires AllConvert(rows, toDomain)
  {
    seq(|rows|, i requires 0 <= i < |rows| => toDomain(rows[i].value).value)
  }

  ghost predicate AllOk<T>(responses: seq<Result<Response<T>>>) {
    forall k :: 0 <= k < |responses| ==> responses[k].Ok?
  }

  /** All responses succeeded, all but the last carry a token, and the last carries none. */
  ghost predicate Completed<T>(responses: seq<Result<Response<T>>>) {
    && responses != [] && AllOk(responses)
    && forall k :: 0 <= k < |responses| ==> (responses[k].value.nextPageToken == "" <==> k == |responses| - 1)
  }

  ghost predicate Answers<V, T>(kind: Kind, id: UUID, r: Result<Response<T>>, page: Page<V>, toDomain: V -> Option<T>) {
    && Fits64(page.next) && AllConvert(page.rows, toDomain)
    && r == Ok(Response(Converted(page.rows, toDomain), TokenOf(kind, id, page.next)))
  }

  /** The endpoint answers each token it may have issued with the page of `m` behind its cursor. */
  ghost predicate Serves<V, T>(
    endpoint: (int32, string) -> Result<Response<T>>, kind: Kind, id: UUID, m: map<nat, V>, hi: nat, toDomain: V -> Option<T>)
  {
    forall size: int32, after :: Fits64(after) ==>
      Answers(kind, id, endpoint(size, TokenOf(kind, id, after)), PageOf(m, after, size, hi), toDomain)
  }

  lemma RespondAnswers<V, T>(
    kind: Kind, id: UUID, m: map<nat, V>, hi: nat, toDomain: V -> Option<T>, size: int32, after: Option<int>,
    page: Option<int> -> Result<Listing<T>>)
    requires Known(kind) && Positions64(m) && Convertible(m, toDomain) && Fits64(after)
    requires (forall at :: ListingFits(page(at))) && page(after) == Convert(PageOf(m, after, size, hi), toDomain)
    ensures Answers(kind, id, Respond(kind, id, TokenOf(kind, id, after), page), PageOf(m, after, size, hi), toDomain)
  {
    CursorOfToken(kind, id, after);
    PageFits(m, after, size, hi);
    PageConverts(m, toDomain, after, size, hi);
    var rows := PageOf(m, after, size, hi).rows;
    assert AllConvert(rows, toDomain);
    assert Convert(PageOf(m, after, size, hi), toDomain).value.entries == Converted(rows, toDomain);
  }

  ghost predicate AllAnswer<V, T>(
    kind: Kind, id: UUID, responses: seq<Result<Response<T>>>, pages: seq<Page<V>>, toDomain: V -> Option<T>)
  {
    |responses| == |pages| && forall k :: 0 <= k < |pages| ==> Answers(kind, id, responses[k], pages[k], toDomain)
  }

  lemma AnswersMore<V, T>(
    kind: Kind, id: UUID, r: Result<Response<T>>, responses: seq<Result<Response<T>>>, page: Page<V>, pages: seq<Page<V>>,
    toDomain: V -> Option<T>)
    requires Answers(kind, id, r, page, toDomain) && AllAnswer(kind, id, responses, pages, toDomain)
    ensures AllAnswer(kind, id, [r] + responses, [page] + pages, toDomain)
  {
  }

  /** Passing tokens is following cursors. */
  lemma {:induction false} ClientFollows<V, T>(
    endpoint: (int32, string) -> Result<Response<T>>, kind: Kind, id: UUID, m: map<nat, V>, hi: nat, toDomain: V -> Option<T>,
    sizes: seq<int32>, after: Option<int>)
    requires Known(kind) && Serves(endpoint, kind, id, m, hi, toDomain) && Fits64(after)
    ensures AllAnswer(kind, id, Client(endpoint, sizes, TokenOf(kind, id, after)), Follow(m, after, sizes, hi), toDomain)
    decreases |sizes|
  {
    if sizes != [] {
      var page, r := PageOf(m, after, sizes[0], hi), endpoint(sizes[0], TokenOf(kind, id, after));
      assert Answers(kind, id, r, page, toDomain);
      CursorOfToken(kind, id, page.next);
      if page.next.Some? {
        ClientFollows(endpoint, kind, id, m, hi, toDomain, sizes[1..], page.next);
        AnswersMore(kind, id, r, Client(endpoint, sizes[1..], TokenOf(kind, id, page.next)),
                    page, Follow(m, page.next, sizes[1..], hi), toDomain);
      } else {
        AnswersMore(kind, id, r, [], page, [], toDomain);
      }
    }
  }

  lemma ConvertedConcat<V, T>(a: seq<Rows.Row<V>>, b: seq<Rows.Row<V>>, toDomain: V -> Option<T>)
    requires AllConvert(a, toDomain) && AllConvert(b, toDomain)
    ensures AllConvert(a + b, toDomain) && Converted(a + b, toDomain) == Converted(a, toDomain) + Converted(b, toDomain)
  {
  }

  lemma AnswersTail<V, T>(
    kind: Kind, id: UUID, responses: seq<Result<Response<T>>>, pages: seq<Page<V>>, toDomain: V -> Option<T>)
    requires AllAnswer(kind, id, responses, pages, toDomain) && pages != []
    ensures Answers(kind, id, responses[0], pages[0], toDomain)
    ensures AllAnswer(kind, id, responses[1..], pages[1..], toDomain)
  {
  }

  lemma {:induction false} ReceivedIsGathered<V, T>(
    kind: Kind, id: UUID, responses: seq<Result<Response<T>>>, pages: seq<Page<V>>, toDomain: V -> Option<T>)
    requires AllAnswer(kind, id, responses, pages, toDomain)
    ensures AllConvert(Gathered(pages), toDomain) && Received(responses) == Converted(Gathered(pages), toDomain)
  {
    if pages != [] {
      AnswersTail(kind, id, responses, pages, toDomain);
      ReceivedIsGathered(kind, id, responses[1..], pages[1..], toDomain);
      ConvertedConcat(pages[0].rows, Gathered(pages[1..]), toDomain);
    }
  }

  lemma AnswersComplete<V, T>(
    kind: Kind, id: UUID, responses: seq<Result<Response<T>>>, pages: seq<Page<V>>, toDomain: V -> Option<T>)
    requires Known(kind) && AllAnswer(kind, id, responses, pages, toDomain) && Finished(pages)
    ensures Completed(responses)
  {
    forall k | 0 <= k < |responses|
      ensures responses[k].Ok? && (responses[k].value.nextPageToken == "" <==> k == |responses| - 1)
    {
      assert Answers(kind, id, responses[k], pages[k], toDomain);
      CursorOfToken(kind, id, pages[k].next);
    }
  }

  /** Everything the client gets is the rows of `m` in order, and the last response says so. */
  ghost predicate ReceivesAll<V, T>(responses: seq<Result<Response<T>>>, m: map<nat, V>, hi: nat, toDomain: V -> Option<T>) {
    && Completed(responses)
    && AllConvert(Rows.Between(m, 0, hi), toDomain)
    && Received(responses) == Converted(Rows.Between(m, 0, hi), toDomain)
  }

  /**
   * A client that starts without a token and passes each token back receives every row of the table
   * once, in order, and is told when it is done, whatever page sizes it asks for.
   */
  lemma ClientReceivesAll<V, T>(
    endpoint: (int32, string) -> Result<Response<T>>, kind: Kind, id: UUID, m: map<nat, V>, hi: nat, toDomain: V -> Option<T>,
    sizes: seq<int32>)
    requires Known(kind) && Serves(endpoint, kind, id, m, hi, toDomain)
    requires sizes != [] && |Rows.Between(m, 0, hi)| <= |sizes|
    ensures ReceivesAll(Client(endpoint, sizes, ""), m, hi, toDomain)
  {
    var responses, pages := Client(endpoint, sizes, ""), Follow(m, None, sizes, hi);
    ClientFollows(endpoint, kind, id, m, hi, toDomain, sizes, None);
    FullPaging(m, None, sizes, hi);
    ReceivedIsGathered(kind, id, responses, pages, toDomain);
    AnswersComplete(kind, id, responses, pages, toDomain);
  }

  // ---------------------------------------------------------------- the endpoints

  /** Part of a table has no more rows than the table. */
  lemma RowsAtMost<V, W>(m: map<nat, V>, n: map<nat, W>, hi: nat)
    requires m.Keys <= n.Keys
    ensures |Rows.Between(m, 0, hi)| <= |Rows.Ordered(n, hi)|
  {
    Rows.LengthBelow(m, hi);
    Rows.LengthBelow(n, hi);
    SubsetSize(Rows.KeysBelow(m, hi), Rows.KeysBelow(n, hi));
  }

  lemma {:induction false} SubsetSize<T>(a: set<T>, b: set<T>)
    requires a <= b
    ensures |a| <= |b|
  {
    if a != {} {
      var x :| x in a;
      SubsetSize(a - {x}, b - {x});
    }
  }

  function MessagesEndpoint(t: Tables, c: UUID, filter: Filter): (int32, string) -> Result<Response<Message>>
    requires ItemsFit(t)
  {
    (size: int32, token: string) => ListConversationMessages(t, c, filter, size, token)
  }

  function IDsEndpoint(t: Tables, c: UUID): (int32, string) -> Result<Response<UUID>>
    requires ItemsFit(t)
  {
    (size: int32, token: string) => ListConversationMessageIDs(t, c, size, token)
  }

  function SnapshotEndpoint(t: Tables, s: UUID): (int32, string) -> Result<Response<Message>>
    requires SnapshotsFit(t)
  {
    (size: int32, token: string) => ListSnapshotMessages(t, s, size, token)
  }

  lemma MessagesServed(t: Tables, c: UUID, filter: Filter, sizes: seq<int32>)
    requires ItemsFit(t) && Readable(t) && c in t.conversations && sizes != [] && |Order(t, c)| <= |sizes|
    ensures ReceivesAll(Client(MessagesEndpoint(t, c, filter), sizes, ""), Selected(t, c, filter), t.nextPosition, MessageDomain)
  {
    var m, hi := Selected(t, c, filter), t.nextPosition;
    ConversationPositions(t, c, filter);
    SelectedConvertible(t, c, filter);
    forall size: int32, after | Fits64(after)
      ensures Answers(CONVERSATION, c, MessagesEndpoint(t, c, filter)(size, TokenOf(CONVERSATION, c, after)),
                      PageOf(m, after, size, hi), MessageDomain)
    {
      ConversationPagesFit(t, c, filter, size);
      RespondAnswers(CONVERSATION, c, m, hi, MessageDomain, size, after, after => MessagePage(t, c, filter, size, after));
    }
    RowsAtMost(m, ItemsOf(t.items, c), hi);
    ClientReceivesAll(MessagesEndpoint(t, c, filter), CONVERSATION, c, m, hi, MessageDomain, sizes);
  }

  lemma SnapshotServed(t: Tables, s: UUID, sizes: seq<int32>)
    requires SnapshotsFit(t) && Readable(t) && s in t.snapshots && sizes != [] && |t.snapshots[s].items| <= |sizes|
    ensures var row := t.snapshots[s];
            ReceivesAll(Client(SnapshotEndpoint(t, s), sizes, ""), row.items, |row.items|, ItemDomain(row.conversation))
  {
    var row := t.snapshots[s];
    var m, hi, domain := row.items, |row.items|, ItemDomain(row.conversation);
    assert SnapshotFits(t, row);
    SnapshotPositions(t, s);
    SnapshotConvertible(t, s);
    forall size: int32, after | Fits64(after)
      ensures Answers(SNAPSHOT, s, SnapshotEndpoint(t, s)(size, TokenOf(SNAPSHOT, s, after)), PageOf(m, after, size, hi), domain)
    {
      SnapshotPagesFit(t, s, size);
      RespondAnswers(SNAPSHOT, s, m, hi, domain, size, after, after => SnapshotPage(t, s, size, after));
    }
    Rows.OrderedLength(m, hi);
    ClientReceivesAll(SnapshotEndpoint(t, s), SNAPSHOT, s, m, hi, domain, sizes);
  }

  function SnapshotIDsEndpoint(t: Tables, s: UUID): (int32, string) -> Result<Response<UUID>>
    requires SnapshotsFit(t)
  {
    (size: int32, token: string) => ListSnapshotMessageIDs(t, s, size, token)
  }

  // ---------------------------------------------------------------- what clients receive

  lemma ShownRows(t: Tables, rows: seq<Rows.Row<StoredMessage>>)
    requires AllStored(t, rows) && AllConvert(rows, MessageDomain)
    ensures Shows(t, RowIDs(rows), Converted(rows, MessageDomain))
  {
    forall k | 0 <= k < |rows| ensures ToMessage(RowIDs(rows)[k], t.messages[RowIDs(rows)[k]]) == Some(Converted(rows, MessageDomain)[k]) {
      assert MessageDomain(rows[k].value).Some?;
    }
  }

  /** The client receives exactly the wanted messages of the order, in order, each as it is stored. */
  lemma ClientListsConversation(t: Tables, c: UUID, filter: Filter, sizes: seq<int32>)
    requires ItemsFit(t) && Readable(t) && c in t.conversations && sizes != [] && |Order(t, c)| <= |sizes|
    ensures var responses := Client(MessagesEndpoint(t, c, filter), sizes, "");
            Completed(responses) && Shows(t, OnlyWanted(t, filter, Order(t, c)), Received(responses))
  {
    MessagesServed(t, c, filter, sizes);
    SelectedRowsAreWanted(t, c, filter);
    ShownRows(t, Rows.Between(Selected(t, c, filter), 0, t.nextPosition));
  }

  /** Without a filter it receives the whole order. */
  lemma ClientListsOrder(t: Tables, c: UUID, sizes: seq<int32>)
    requires Consistent(t) && Readable(t) && c in t.conversations && sizes != [] && |Order(t, c)| <= |sizes|
    ensures var responses := Client(MessagesEndpoint(t, c, NO_FILTER), sizes, "");
            Completed(responses) && Shows(t, Order(t, c), Received(responses))
  {
    ClientListsConversation(t, c, NO_FILTER, sizes);
    OrderIsStored(t, c);
    UnfilteredWantsAll(t, Order(t, c));
  }

  lemma OrderIsStored(t: Tables, c: UUID)
    requires Consistent(t)
    ensures forall id :: id in Order(t, c) ==> id in t.messages
  {
    OrderSound(t, c);
    forall id | id in Order(t, c) ensures id in t.messages {
      assert id in Elements(Order(t, c));
    }
  }

  /** The snapshot's client receives exactly the copies in order. */
  lemma ClientListsSnapshot(t: Tables, s: UUID, sizes: seq<int32>)
    requires SnapshotsFit(t) && Readable(t) && s in t.snapshots && sizes != [] && |t.snapshots[s].items| <= |sizes|
    ensures var row := t.snapshots[s];
            var responses := Client(SnapshotEndpoint(t, s), sizes, "");
            && Completed(responses) && |Received(responses)| == |row.items|
            && forall k :: 0 <= k < |row.items| ==>
                 k in row.items && SnapshotMessage(row.conversation, row.items[k]) == Some(Received(responses)[k])
  {
    var row := t.snapshots[s];
    var rows := Rows.Between(row.items, 0, |row.items|);
    SnapshotServed(t, s, sizes);
    assert SnapshotFits(t, row);
    IndexedRows(row.items, |row.items|);
    forall k | 0 <= k < |rows|
      ensures k in row.items
      ensures SnapshotMessage(row.conversation, row.items[k]) == Some(Converted(rows, ItemDomain(row.conversation))[k])
    {
      assert ItemDomain(row.conversation)(rows[k].value).Some?;
    }
  }

  /** Rows at the indices from zero on are listed at those. */
  lemma {:induction false} IndexedRows<V>(m: map<nat, V>, n: nat)
    requires forall i: nat :: i < n ==> i in m
    ensures |Rows.Between(m, 0, n)| == n
    ensures forall k :: 0 <= k < n ==> Rows.Between(m, 0, n)[k] == Rows.Row(k, m[k])
  {
    if n > 0 {
      IndexedRows(m, n - 1);
    }
  }

  lemma ReturnedIsShown(
    t: Tables, u: Tables, c: UUID, inputs: seq<AppendInput>, ids: seq<UUID>, now: Time, messages: seq<Message>)
    requires MessagesAppended(t, u, c, inputs, ids, now, messages)
    ensures Shows(u, ids, messages)
  {
  }

  lemma TailShows(u: Tables, before: seq<UUID>, ids: seq<UUID>, received: seq<Message>, messages: seq<Message>)
    requires Shows(u, before + ids, received) && Shows(u, ids, messages)
    ensures |received| == |before| + |messages| && received[|before|..] == messages
  {
    forall i | 0 <= i < |messages| ensures received[|before| + i] == messages[i] {
      assert (before + ids)[|before| + i] == ids[i];
    }
  }

  /** A listing made right after an append ends with the messages the append returned. */
  lemma ListingAfterAppend(
    t: Tables, u: Tables, c: UUID, inputs: seq<AppendInput>, ids: seq<UUID>, now: Time, metadata: Metadata, messages: seq<Message>,
    sizes: seq<int32>)
    requires Healthy(u) && AppendDone(t, u, c, inputs, ids, now, metadata, messages)
    requires sizes != [] && |Order(u, c)| <= |sizes|
    ensures var received := Received(Client(MessagesEndpoint(u, c, NO_FILTER), sizes, ""));
            |received| == |Order(t, c)| + |messages| && received[|Order(t, c)|..] == messages
  {
    ClientListsOrder(u, c, sizes);
    ReturnedIsShown(t, u, c, inputs, ids, now, messages);
    TailShows(u, Order(t, c), ids, Received(Client(MessagesEndpoint(u, c, NO_FILTER), sizes, "")), messages);
  }

  /** The ids of a response, its token unchanged. */
  function OnlyIDs(r: Result<Response<Message>>): Result<Response<UUID>> {
    match r
    case Err(e) => Err(e)
    case Ok(response) => Ok(Response(IDs(response.entries), response.nextPageToken))
  }

  /** Asked the same, the unfiltered message listing and the id listing answer the same, tokens included. */
  lemma EndpointsAgree(t: Tables, c: UUID, size: int32, token: string)
    requires ItemsFit(t) && Readable(t)
    ensures ListConversationMessageIDs(t, c, size, token) == OnlyIDs(ListConversationMessages(t, c, NO_FILTER, size, token))
  {
    var after := Cursor(CONVERSATION, c, token);
    if after.Ok? && c in t.conversations {
      ListingsAgree(t, c, size, after.value);
    }
  }

  /** Response by response the same ids, errors and tokens. */
  ghost predicate Agree(messages: seq<Result<Response<Message>>>, ids: seq<Result<Response<UUID>>>) {
    |ids| == |messages| && forall k :: 0 <= k < |ids| ==> ids[k] == OnlyIDs(messages[k])
  }

  lemma AgreeMore(
    m: Result<Response<Message>>, messages: seq<Result<Response<Message>>>, i: Result<Response<UUID>>, ids: seq<Result<Response<UUID>>>)
    requires i == OnlyIDs(m) && Agree(messages, ids)
    ensures Agree([m] + messages, [i] + ids)
  {
  }

  /** So two clients that ask for the same page sizes stay together all the way. */
  lemma {:induction false} ClientsAgree(t: Tables, c: UUID, sizes: seq<int32>, token: string)
    requires ItemsFit(t) && Readable(t)
    ensures var messages := Client(MessagesEndpoint(t, c, NO_FILTER), sizes, token);
            var ids := Client(IDsEndpoint(t, c), sizes, token);
            Agree(messages, ids)
    decreases |sizes|
  {
    if sizes != [] {
      EndpointsAgree(t, c, sizes[0], token);
      var r := ListConversationMessages(t, c, NO_FILTER, sizes[0], token);
      if r.Ok? && r.value.nextPageToken != "" {
        ClientsAgree(t, c, sizes[1..], r.value.nextPageToken);
        AgreeMore(r, Client(MessagesEndpoint(t, c, NO_FILTER), sizes[1..], r.value.nextPageToken),
                  OnlyIDs(r), Client(IDsEndpoint(t, c), sizes[1..], r.value.nextPageToken));
      } else {
        AgreeMore(r, [], OnlyIDs(r), []);
      }
    }
  }

  /** The client of the id listing receives exactly the order. */
  lemma ClientListsIDs(t: Tables, c: UUID, sizes: seq<int32>)
    requires Consistent(t) && Readable(t) && c in t.conversations && sizes != [] && |Order(t, c)| <= |sizes|
    ensures var responses := Client(IDsEndpoint(t, c), sizes, "");
            Completed(responses) && Received(responses) == Order(t, c)
  {
    var messages, ids := Client(MessagesEndpoint(t, c, NO_FILTER), sizes, ""), Client(IDsEndpoint(t, c), sizes, "");
    ClientListsOrder(t, c, sizes);
    ClientsAgree(t, c, sizes, "");
    SameAnswers(messages, ids);
    ShownIDs(t, Order(t, c), Received(messages));
  }

  lemma ShownIDs(t: Tables, ids: seq<UUID>, messages: seq<Message>)
    requires Shows(t, ids, messages)
    ensures IDs(messages) == ids
  {
  }

  /** What clients receive that agree response by response. */
  lemma SameAnswers(messages: seq<Result<Response<Message>>>, ids: seq<Result<Response<UUID>>>)
    requires Agree(messages, ids)
    ensures Received(ids) == IDs(Received(messages))
    ensures Completed(messages) ==> Completed(ids)
  {
    SameReceived(messages, ids);
    if Completed(messages) {
      forall k | 0 <= k < |ids|
        ensures ids[k].Ok? && (ids[k].value.nextPageToken == "" <==> k == |ids| - 1)
      {
        assert ids[k] == OnlyIDs(messages[k]);
      }
    }
  }

  lemma {:induction false} SameReceived(messages: seq<Result<Response<Message>>>, ids: seq<Result<Response<UUID>>>)
    requires Agree(messages, ids)
    ensures Received(ids) == IDs(Received(messages))
  {
    if ids != [] {
      SameReceived(messages[1..], ids[1..]);
      assert ids[0] == OnlyIDs(messages[0]);
    }
  }

  /** Asked the same, the two listings of a snapshot answer the same, tokens included. */
  lemma SnapshotEndpointsAgree(t: Tables, s: UUID, size: int32, token: string)
    requires SnapshotsFit(t) && Readable(t)
    ensures ListSnapshotMessageIDs(t, s, size, token) == OnlyIDs(ListSnapshotMessages(t, s, size, token))
  {
    var after := Cursor(SNAPSHOT, s, token);
    if after.Ok? && s in t.snapshots {
      SnapshotListingsAgree(t, s, size, after.value);
    }
  }

  lemma {:induction false} SnapshotClientsAgree(t: Tables, s: UUID, sizes: seq<int32>, token: string)
    requires SnapshotsFit(t) && Readable(t)
    ensures var messages := Client(SnapshotEndpoint(t, s), sizes, token);
            var ids := Client(SnapshotIDsEndpoint(t, s), sizes, token);
            Agree(messages, ids)
    decreases |sizes|
  {
    if sizes != [] {
      SnapshotEndpointsAgree(t, s, sizes[0], token);
      var r := ListSnapshotMessages(t, s, sizes[0], token);
      if r.Ok? && r.value.nextPageToken != "" {
        SnapshotClientsAgree(t, s, sizes[1..], r.value.nextPageToken);
        AgreeMore(r, Client(SnapshotEndpoint(t, s), sizes[1..], r.value.nextPageToken),
                  OnlyIDs(r), Client(SnapshotIDsEndpoint(t, s), sizes[1..], r.value.nextPageToken));
      } else {
        AgreeMore(r, [], OnlyIDs(r), []);
      }
    }
  }

  /** The client of a snapshot's id listing receives exactly the copied ids in order. */
  lemma ClientListsSnapshotIDs(t: Tables, s: UUID, sizes: seq<int32>)
    requires SnapshotsFit(t) && Readable(t) && s in t.snapshots && sizes != [] && |t.snapshots[s].items| <= |sizes|
    ensures var items := t.snapshots[s].items;
            var responses := Client(SnapshotIDsEndpoint(t, s), sizes, "");
            && Completed(responses) && |Received(responses)| == |items|
            && forall k :: 0 <= k < |items| ==> k in items && Received(responses)[k] == items[k].message
  {
    ClientListsSnapshot(t, s, sizes);
    SnapshotClientsAgree(t, s, sizes, "");
    SameAnswers(Client(SnapshotEndpoint(t, s), sizes, ""), Client(SnapshotIDsEndpoint(t, s), sizes, ""));
  }
}
