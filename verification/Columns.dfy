/**
 * A message body as nullable columns and back (internal/state/convert.go). Empty strings become NULL,
 * so decoding recovers a body exactly on the domain `Recoverable`.
 */
module Columns {
  import opened Base
  import opened Body
  import Json
  import SortedKeys

  /** `toolMetadata` is the JSON text of the metadata column. */
  datatype MessageColumns = MessageColumns(
    bodyText: Option<string>, toolName: Option<string>, toolCallID: Option<string>, toolTextOutput: Option<string>,
    toolImageExternalURL: Option<string>, toolImageMimeType: Option<string>, toolImageDetail: Option<int16>,
    toolImageWidthPX: Option<int32>, toolImageHeightPX: Option<int32>, toolImageSHA256: Option<string>,
    toolMetadata: Option<string>)

  const EMPTY := MessageColumns(None, None, None, None, None, None, None, None, None, None, None)

  function StringPtr(v: string): Option<string> {
    if v == "" then None else Some(v)
  }

  function NonZero(v: int32): Option<int32> {
    if v == 0 then None else Some(v)
  }

  function MapFields(keys: seq<string>, m: map<string, string>): seq<Json.Field>
    requires forall k :: k in keys ==> k in m
  {
    seq(|keys|, i requires 0 <= i < |keys| => Json.Field(keys[i], Json.Str(m[keys[i]])))
  }

  function MapText(keys: seq<string>, m: map<string, string>): Option<string>
    requires forall k :: k in keys ==> k in m
  {
    if keys == [] then None else Some(Json.Print(Json.Object(MapFields(keys, m))))
  }

  function ImageColumns(cols: MessageColumns, i: ToolImageOutput): MessageColumns {
    cols.(toolImageExternalURL := StringPtr(i.externalURL), toolImageMimeType := StringPtr(i.mimeType),
          toolImageDetail := Some(i.detail), toolImageWidthPX := NonZero(i.widthPX),
          toolImageHeightPX := NonZero(i.heightPX), toolImageSHA256 := StringPtr(i.sha256))
  }

  function ToolColumns(t: ToolOutputBody, metadata: Option<string>): MessageColumns {
    var cols := EMPTY.(toolName := StringPtr(t.toolName), toolCallID := StringPtr(t.toolCallID), toolMetadata := metadata);
    var cols := if t.text.Some? then cols.(toolTextOutput := StringPtr(t.text.value)) else cols;
    if t.image.Some? then ImageColumns(cols, t.image.value) else cols
  }

  ghost function MetadataText(m: map<string, string>): Option<string> {
    MapText(SortedKeys.OfSet(m.Keys), m)
  }

  /** None for a body that fails validation. */
  ghost function Encode(b: MessageBody): Option<MessageColumns> {
    if !b.Valid() then None
    else if b.text.Some? then Some(EMPTY.(bodyText := StringPtr(b.text.value)))
    else Some(ToolColumns(b.toolOutput.value, MetadataText(b.toolOutput.value.Entries())))
  }

  method EncodeMessageBody(b: MessageBody) returns (r: Option<MessageColumns>)
    ensures r == Encode(b)
  {
    if !b.Valid() {
      return None;
    }
    if b.text.Some? {
      return Some(EMPTY.(bodyText := StringPtr(b.text.value)));
    }
    var entries := b.toolOutput.value.Entries();
    var keys := SortedKeys.OfMap(entries);
    assert forall k :: k in keys ==> k in SortedKeys.Elements(keys);
    return Some(ToolColumns(b.toolOutput.value, MapText(keys, entries)));
  }

  /** Members are stored one after the other; null stores the empty string. */
  function ReadMap(fields: seq<Json.Field>, m: map<string, string>): Option<map<string, string>> {
    if fields == [] then Some(m)
    else match fields[0].value
      case Str(v) => ReadMap(fields[1..], m[fields[0].key := v])
      case Null => ReadMap(fields[1..], m[fields[0].key := ""])
      case _ => None
  }

  function DecodeMetadata(text: Option<string>): Option<map<string, string>> {
    match text
    case None => Some(map[])
    case Some(t) =>
      match Json.Parse(t)
      case Some(Object(fields)) => ReadMap(fields, map[])
      case Some(Null) => Some(map[])
      case _ => None
  }

  function OrEmpty(v: Option<string>): string {
    if v.Some? then v.value else ""
  }

  function OrZero(v: Option<int32>): int32 {
    if v.Some? then v.value else 0
  }

  function DecodeImage(cols: MessageColumns): Option<ToolImageOutput> {
    if cols.toolImageExternalURL.Some? || cols.toolImageMimeType.Some? || cols.toolImageDetail.Some? then
      Some(ToolImageOutput(
        OrEmpty(cols.toolImageExternalURL), OrEmpty(cols.toolImageMimeType),
        if cols.toolImageDetail.Some? then cols.toolImageDetail.value else 0,
        OrZero(cols.toolImageWidthPX), OrZero(cols.toolImageHeightPX), OrEmpty(cols.toolImageSHA256)))
    else None
  }

  /** None where the source reports a missing variant or unreadable metadata. */
  function Decode(cols: MessageColumns): Option<MessageBody> {
    if cols.bodyText.Some? then Some(MessageBody(cols.bodyText, None))
    else if cols.toolName.None? then None
    else match DecodeMetadata(cols.toolMetadata)
      case None => None
      case Some(m) =>
        var image := DecodeImage(cols);
        if cols.toolTextOutput.None? && image.None? then None
        else Some(MessageBody(None, Some(ToolOutputBody(
          cols.toolName.value, OrEmpty(cols.toolCallID), Some(m), cols.toolTextOutput, image))))
  }

  /** Bodies that survive storage: everything whose presence is marked by a string is non-empty. */
  predicate Recoverable(b: MessageBody) {
    && b.Valid()
    && (b.text.Some? ==> b.text.value != "")
    && (b.toolOutput.Some? ==>
          var t := b.toolOutput.value;
          t.toolName != "" && (t.image.Some? || t.text.value != ""))
  }

  function Chosen(keys: seq<string>, m: map<string, string>): map<string, string> {
    map k | k in keys && k in m :: m[k]
  }

  lemma {:induction false} ReadMapFields(keys: seq<string>, m: map<string, string>, acc: map<string, string>)
    requires forall k :: k in keys ==> k in m
    ensures ReadMap(MapFields(keys, m), acc) == Some(acc + Chosen(keys, m))
  {
    if keys == [] {
      assert MapFields(keys, m) == [] && acc + Chosen(keys, m) == acc;
    } else {
      var next := acc[keys[0] := m[keys[0]]];
      assert MapFields(keys, m)[1..] == MapFields(keys[1..], m);
      ReadMapFields(keys[1..], m, next);
      assert keys == [keys[0]] + keys[1..];
      assert next + Chosen(keys[1..], m) == acc + Chosen(keys, m);
    }
  }

  lemma ParseMapText(keys: seq<string>, m: map<string, string>)
    requires keys != [] && forall k :: k in keys ==> k in m
    ensures Json.Parse(MapText(keys, m).value) == Some(Json.Object(MapFields(keys, m)))
  {
    ObjectPrintable(MapFields(keys, m), Json.MAX_DEPTH);
    Json.ParsePrint(Json.Object(MapFields(keys, m)));
  }

  lemma MetadataRoundTrip(m: map<string, string>)
    ensures DecodeMetadata(MetadataText(m)) == Some(m)
  {
    var keys := SortedKeys.OfSet(m.Keys);
    forall k ensures k in keys <==> k in m {
      assert k in SortedKeys.Elements(keys) <==> k in m.Keys;
    }
    if keys == [] {
      assert m == map[];
    } else {
      ParseMapText(keys, m);
      ReadMapFields(keys, m, map[]);
      assert map[] + Chosen(keys, m) == m;
    }
  }

  /** For a valid body decoding succeeds exactly on the recoverable ones and then returns the same content. */
  lemma ColumnsRoundTrip(b: MessageBody)
    requires b.Valid()
    ensures Decode(Encode(b).value).Some? <==> Recoverable(b)
    ensures Recoverable(b) ==> Decode(Encode(b).value) == Some(b.Normal())
  {
    if b.toolOutput.Some? {
      MetadataRoundTrip(b.toolOutput.value.Entries());
    }
  }

  /** Accepted are exactly the bodies with one variant, and tool outputs with one variant of their own. */
  lemma EncodeAccepts(b: MessageBody)
    ensures Encode(b).Some? <==>
            || (b.text.Some? && b.toolOutput.None?)
            || (b.text.None? && b.toolOutput.Some? && b.toolOutput.value.text.Some? && b.toolOutput.value.image.None?)
            || (b.text.None? && b.toolOutput.Some? && b.toolOutput.value.text.None? && b.toolOutput.value.image.Some?)
  {
  }

  /** Encoding what was decoded reproduces the columns. */
  lemma ReencodeReproduces(b: MessageBody)
    requires Recoverable(b)
    ensures Recoverable(b.Normal()) && b.Normal().Normal() == b.Normal()
    ensures Encode(b.Normal()) == Encode(b)
  {
  }

  /** Columns that differ at most in how the same metadata map is written as JSON. */
  ghost predicate SameMeaning(c: MessageColumns, d: MessageColumns) {
    c.(toolMetadata := None) == d.(toolMetadata := None)
    && DecodeMetadata(c.toolMetadata) == DecodeMetadata(d.toolMetadata)
  }

  /**
   * A JSONB column may return other text for the same metadata. The body read back is the same, and
   * encoding it gives columns of the same meaning as those read.
   */
  lemma ReformattedMetadata(b: MessageBody, stored: MessageColumns)
    requires Recoverable(b) && SameMeaning(Encode(b).value, stored)
    ensures Decode(stored) == Some(b.Normal())
    ensures SameMeaning(Encode(Decode(stored).value).value, stored)
  {
    ColumnsRoundTrip(b);
    ReencodeReproduces(b);
  }
}
