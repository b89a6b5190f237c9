/** Page sizes and page tokens: a JSON object in unpadded base64url (internal/state/pagination.go). */
module PageToken {
  import opened Base
  import Base64Url
  import Json
  import Utf8
  import Uuid

  const DEFAULT_PAGE_SIZE: int32 := 50
  const MAX_PAGE_SIZE: int32 := 100

  function NormalizePageSize(size: int32): (n: int32)
    ensures size <= 0 ==> n == 50
    ensures size > 100 ==> n == 100
    ensures 1 <= size <= 100 ==> n == size
  {
    if size <= 0 then DEFAULT_PAGE_SIZE
    else if size > MAX_PAGE_SIZE then MAX_PAGE_SIZE
    else size
  }

  /** The two JSON names of a token kind. */
  datatype Kind = Kind(idName: string, positionName: string)

  const CONVERSATION := Kind("conversation_id", "position")
  const SNAPSHOT := Kind("snapshot_id", "order_index")

  datatype Payload = Payload(id: string, position: int64)

  function ToJson(kind: Kind, id: UUID, position: int64): Json.Json {
    Json.Object([
      Json.Field(kind.idName, Json.Str(Uuid.ToString(id))),
      Json.Field(kind.positionName, Json.Number(Json.PrintInt(position)))
    ])
  }

  /** Field names match without regard to case; two letters have a third form outside ASCII. */
  function FoldRune(c: char): char {
    if 'a' <= c <= 'z' then (c as int - 32) as char
    else if c as int == 0x17F then 'S'
    else if c as int == 0x212A then 'K'
    else c
  }

  function FoldName(name: string): string {
    seq(|name|, i requires 0 <= i < |name| => FoldRune(name[i]))
  }

  /** Later members override earlier ones, null changes nothing, unknown names are ignored. */
  function ReadFields(kind: Kind, fields: seq<Json.Field>, payload: Payload): Option<Payload> {
    if fields == [] then Some(payload)
    else
      var f, rest := fields[0], fields[1..];
      if FoldName(f.key) == FoldName(kind.idName) then
        match f.value
        case Str(text) => ReadFields(kind, rest, payload.(id := text))
        case Null => ReadFields(kind, rest, payload)
        case _ => None
      else if FoldName(f.key) == FoldName(kind.positionName) then
        match f.value
        case Number(literal) =>
          (match Json.ParseInt64(literal)
           case Some(n) => ReadFields(kind, rest, payload.(position := n))
           case None => None)
        case Null => ReadFields(kind, rest, payload)
        case _ => None
      else ReadFields(kind, rest, payload)
  }

  function FromJson(kind: Kind, j: Json.Json): Option<Payload> {
    match j
    case Object(fields) => ReadFields(kind, fields, Payload("", 0))
    case Null => Some(Payload("", 0))
    case _ => None
  }

  function Encode(kind: Kind, id: UUID, position: int64): string {
    Base64Url.Encode(Utf8.Encode(Json.Print(ToJson(kind, id, position))))
  }

  function Decode(kind: Kind, token: string): Option<(UUID, int64)> {
    if token == "" then None
    else match Base64Url.Decode(token)
      case None => None
      case Some(data) =>
        match Json.Parse(Utf8.Decode(data))
        case None => None
        case Some(j) =>
          match FromJson(kind, j)
          case None => None
          case Some(payload) =>
            match Uuid.Parse(payload.id)
            case None => None
            case Some(id) => Some((id, payload.position))
  }

  lemma TokenPrintable(kind: Kind, id: UUID, position: int64, depth: nat)
    requires depth > 0
    ensures Json.Printable(ToJson(kind, id, position), depth)
  {
    Json.PrintIntIsLiteral(position);
  }

  /** Decoding reaches exactly the JSON value that was encoded. */
  lemma TokenCarriesJson(kind: Kind, id: UUID, position: int64)
    ensures Encode(kind, id, position) != ""
    ensures var data := Base64Url.Decode(Encode(kind, id, position));
            data.Some? && Json.Parse(Utf8.Decode(data.value)) == Some(ToJson(kind, id, position))
  {
    var j := ToJson(kind, id, position);
    TokenPrintable(kind, id, position, Json.MAX_DEPTH);
    Json.ParsePrint(j);
    Utf8.DecodeEncode(Json.Print(j));
    Base64Url.DecodeEncode(Utf8.Encode(Json.Print(j)));
  }

  lemma NamesDiffer()
    ensures FoldName("conversation_id") != FoldName("position")
    ensures FoldName("snapshot_id") != FoldName("order_index")
    ensures FoldName("conversation_id") != FoldName("snapshot_id")
    ensures FoldName("conversation_id") != FoldName("order_index")
    ensures FoldName("position") != FoldName("snapshot_id")
    ensures FoldName("position") != FoldName("order_index")
  {
    assert FoldName("snapshot_id")[0] != FoldName("order_index")[0];
  }

  lemma ReadTwoFields(kind: Kind, first: Json.Field, second: Json.Field, payload: Payload)
    ensures ReadFields(kind, [first, second], payload) ==
            match ReadFields(kind, [first], payload)
            case None => None
            case Some(p) => ReadFields(kind, [second], p)
  {
    assert [first, second][1..] == [second] && [first][1..] == [];
  }

  lemma ReadOneField(kind: Kind, f: Json.Field, payload: Payload)
    ensures FoldName(f.key) == FoldName(kind.idName) && f.value.Str? ==>
              ReadFields(kind, [f], payload) == Some(payload.(id := f.value.text))
    ensures FoldName(f.key) == FoldName(kind.positionName) != FoldName(kind.idName) && f.value.Number?
            && Json.ParseInt64(f.value.literal).Some? ==>
              ReadFields(kind, [f], payload) == Some(payload.(position := Json.ParseInt64(f.value.literal).value))
    ensures FoldName(f.key) != FoldName(kind.idName) && FoldName(f.key) != FoldName(kind.positionName) ==>
              ReadFields(kind, [f], payload) == Some(payload)
  {
    assert [f][1..] == [];
  }

  lemma ReadOwn(kind: Kind, id: UUID, position: int64)
    requires FoldName(kind.idName) != FoldName(kind.positionName)
    ensures FromJson(kind, ToJson(kind, id, position)) == Some(Payload(Uuid.ToString(id), position))
  {
    var f := ToJson(kind, id, position).fields;
    Json.ParsePrintInt64(position);
    ReadOneField(kind, f[0], Payload("", 0));
    ReadOneField(kind, f[1], Payload(Uuid.ToString(id), 0));
    ReadTwoFields(kind, f[0], f[1], Payload("", 0));
  }

  lemma ReadOther(kind: Kind, other: Kind, id: UUID, position: int64)
    requires FoldName(other.idName) != FoldName(kind.idName) && FoldName(other.idName) != FoldName(kind.positionName)
    requires FoldName(other.positionName) != FoldName(kind.idName) && FoldName(other.positionName) != FoldName(kind.positionName)
    ensures FromJson(kind, ToJson(other, id, position)) == Some(Payload("", 0))
  {
    var f := ToJson(other, id, position).fields;
    ReadOneField(kind, f[0], Payload("", 0));
    ReadOneField(kind, f[1], Payload("", 0));
    ReadTwoFields(kind, f[0], f[1], Payload("", 0));
  }

  /** A token of either kind gives back exactly the identifier and position it was made from. */
  lemma TokenRoundTrip(kind: Kind, id: UUID, position: int64)
    requires kind == CONVERSATION || kind == SNAPSHOT
    ensures Encode(kind, id, position) != ""
    ensures Decode(kind, Encode(kind, id, position)) == Some((id, position))
  {
    TokenCarriesJson(kind, id, position);
    NamesDiffer();
    ReadOwn(kind, id, position);
    Uuid.ParseToString(id);
  }

  /** A token of one kind is never accepted as the other. */
  lemma TokenKindsDisjoint(kind: Kind, other: Kind, id: UUID, position: int64)
    requires {kind, other} == {CONVERSATION, SNAPSHOT}
    ensures Decode(kind, Encode(other, id, position)) == None
  {
    TokenCarriesJson(other, id, position);
    NamesDiffer();
    ReadOther(kind, other, id, position);
    assert Uuid.Parse("") == None;
  }

  /** What a token spells: the canonical identifier and the decimal position under the source's names. */
  lemma TokenSays(id: UUID, position: int64)
    ensures SaysTwo(Encode(CONVERSATION, id, position), "conversation_id", Uuid.ToString(id), "position", position)
    ensures SaysTwo(Encode(SNAPSHOT, id, position), "snapshot_id", Uuid.ToString(id), "order_index", position)
  {
    TokenCarriesJson(CONVERSATION, id, position);
    TokenCarriesJson(SNAPSHOT, id, position);
    Json.ParsePrintInt64(position);
  }

  /** The token is base64url of a JSON object with these two members. */
  ghost predicate SaysTwo(token: string, idName: string, id: string, positionName: string, position: int64) {
    var data := Base64Url.Decode(token);
    data.Some? &&
    match Json.Parse(Utf8.Decode(data.value))
    case Some(Object(fields)) =>
      && |fields| == 2
      && fields[0] == Json.Field(idName, Json.Str(id)) && fields[1].key == positionName
      && fields[1].value.Number? && Json.ParseInt64(fields[1].value.literal) == Some(position)
    case _ => false
  }
}
