/**
 * Message bodies and their deterministic serialisation (internal/state/types.go), the bytes whose
 * SHA-256 a snapshot stores. FingerprintExact says those bytes determine the content, and only it.
 */
module Body {
  import opened Base
  import Json
  import SortedKeys
  import Utf8

  datatype ToolImageOutput = ToolImageOutput(
    externalURL: string, mimeType: string, detail: int16, widthPX: int32, heightPX: int32, sha256: string)

  /** `metadata` is None for Go's nil map. */
  datatype ToolOutputBody = ToolOutputBody(
    toolName: string, toolCallID: string, metadata: Option<map<string, string>>,
    text: Option<string>, image: Option<ToolImageOutput>)
  {
    predicate Valid() {
      text.Some? != image.Some?
    }

    function Entries(): map<string, string> {
      match metadata
      case Some(m) => m
      case None => map[]
    }
  }

  datatype MessageBody = MessageBody(text: Option<string>, toolOutput: Option<ToolOutputBody>) {
    predicate Valid() {
      text.Some? != toolOutput.Some? && (toolOutput.Some? ==> toolOutput.value.Valid())
    }

    /** The same body with nil metadata replaced by empty metadata. */
    function Normal(): MessageBody {
      match toolOutput
      case None => this
      case Some(t) => this.(toolOutput := Some(t.(metadata := Some(t.Entries()))))
    }
  }

  // ---------------------------------------------------------------- JSON shape

  function Member(key: string, value: Option<Json.Json>): seq<Json.Field> {
    match value
    case None => []
    case Some(v) => [Json.Field(key, v)]
  }

  function Int(n: int): Json.Json {
    Json.Number(Json.PrintInt(n))
  }

  function PairsJson(keys: seq<string>, m: map<string, string>): Json.Json
    requires forall k :: k in keys ==> k in m
  {
    Json.Array(seq(|keys|, i requires 0 <= i < |keys| => Json.Array([Json.Str(keys[i]), Json.Str(m[keys[i]])])))
  }

  /** `omitempty` drops an empty list. */
  function MetadataJson(keys: seq<string>, m: map<string, string>): Option<Json.Json>
    requires forall k :: k in keys ==> k in m
  {
    if keys == [] then None else Some(PairsJson(keys, m))
  }

  function TextJson(key: string, text: Option<string>): Option<Json.Json> {
    match text
    case None => None
    case Some(t) => Some(Json.Object([Json.Field(key, Json.Str(t))]))
  }

  function ImageFields(url: Json.Json, mime: Json.Json, detail: Json.Json, width: Json.Json, height: Json.Json, sha: Json.Json)
    : seq<Json.Field>
  {
    [Json.Field("external_url", url), Json.Field("mime_type", mime), Json.Field("detail", detail),
     Json.Field("width_px", width), Json.Field("height_px", height), Json.Field("sha256", sha)]
  }

  function ImageJson(image: Option<ToolImageOutput>): Option<Json.Json> {
    match image
    case None => None
    case Some(i) => Some(Json.Object(ImageFields(
      Json.Str(i.externalURL), Json.Str(i.mimeType), Int(i.detail), Int(i.widthPX), Int(i.heightPX), Json.Str(i.sha256))))
  }

  function ToolJson(t: ToolOutputBody, keys: seq<string>): Json.Json
    requires forall k :: k in keys ==> k in t.Entries()
  {
    Json.Object([Json.Field("tool_name", Json.Str(t.toolName)), Json.Field("tool_call_id", Json.Str(t.toolCallID))]
      + Member("metadata", MetadataJson(keys, t.Entries()))
      + Member("text", TextJson("text", t.text))
      + Member("image", ImageJson(t.image)))
  }

  /** A text body has no JSON name of its own, so its field keeps the Go name. */
  function PayloadJson(text: Option<string>, tool: Option<Json.Json>): Json.Json {
    Json.Object(Member("text", TextJson("Text", text)) + Member("tool_output", tool))
  }

  ghost function BodyJson(b: MessageBody): Json.Json {
    PayloadJson(b.text,
      match b.toolOutput
      case None => None
      case Some(t) => Some(ToolJson(t, SortedKeys.OfSet(t.Entries().Keys))))
  }

  ghost function DeterministicBytes(b: MessageBody): seq<byte> {
    Utf8.Encode(Json.Print(BodyJson(b)))
  }

  /** The bytes do not depend on the order in which the map yields its keys. */
  method MarshalDeterministicJSON(b: MessageBody) returns (bytes: seq<byte>)
    ensures bytes == DeterministicBytes(b)
  {
    var tool: Option<Json.Json> := None;
    if b.toolOutput.Some? {
      var entries := b.toolOutput.value.Entries();
      var keys := SortedKeys.OfMap(entries);
      assert forall k :: k in keys ==> k in SortedKeys.Elements(keys);
      tool := Some(ToolJson(b.toolOutput.value, keys));
    }
    bytes := Utf8.Encode(Json.Print(PayloadJson(b.text, tool)));
  }

  // ---------------------------------------------------------------- fingerprint

  /** The first member called `key`. */
  function Find(fields: seq<Json.Field>, key: string): Option<Json.Json> {
    if fields == [] then None
    else if fields[0].key == key then Some(fields[0].value)
    else Find(fields[1..], key)
  }

  lemma {:induction false} FindAppend(a: seq<Json.Field>, b: seq<Json.Field>, key: string)
    ensures Find(a + b, key) == if Find(a, key).Some? then Find(a, key) else Find(b, key)
  {
    if a == [] {
      assert a + b == b;
    } else {
      assert (a + b)[1..] == a[1..] + b;
      FindAppend(a[1..], b, key);
    }
  }

  lemma FindMember(key: string, name: string, value: Option<Json.Json>)
    ensures Find(Member(name, value), key) == if name == key then value else None
  {
  }

  lemma FindTool(t: ToolOutputBody, keys: seq<string>)
    requires forall k :: k in keys ==> k in t.Entries()
    ensures var f := ToolJson(t, keys).fields;
            && Find(f, "metadata") == MetadataJson(keys, t.Entries())
            && Find(f, "text") == TextJson("text", t.text)
            && Find(f, "image") == ImageJson(t.image)
  {
    var head := [Json.Field("tool_name", Json.Str(t.toolName)), Json.Field("tool_call_id", Json.Str(t.toolCallID))];
    var meta := Member("metadata", MetadataJson(keys, t.Entries()));
    var text := Member("text", TextJson("text", t.text));
    var image := Member("image", ImageJson(t.image));
    FindNeither(head[0], head[1], "metadata");
    FindNeither(head[0], head[1], "text");
    FindNeither(head[0], head[1], "image");
    FindPieces(head, meta, text, image, "metadata");
    FindPieces(head, meta, text, image, "text");
    FindPieces(head, meta, text, image, "image");
    FindMember("metadata", "metadata", MetadataJson(keys, t.Entries()));
    FindMember("text", "metadata", MetadataJson(keys, t.Entries()));
    FindMember("image", "metadata", MetadataJson(keys, t.Entries()));
    FindMember("metadata", "text", TextJson("text", t.text));
    FindMember("text", "text", TextJson("text", t.text));
    FindMember("image", "text", TextJson("text", t.text));
    FindMember("metadata", "image", ImageJson(t.image));
    FindMember("text", "image", ImageJson(t.image));
    FindMember("image", "image", ImageJson(t.image));
  }

  lemma FindNeither(f: Json.Field, g: Json.Field, key: string)
    requires f.key != key && g.key != key
    ensures Find([f, g], key) == None
  {
    assert [f, g][1..] == [g] && [g][1..] == [];
    assert Find([g], key) == Find([g][1..], key) == None;
  }

  lemma FindPieces(a: seq<Json.Field>, b: seq<Json.Field>, c: seq<Json.Field>, d: seq<Json.Field>, key: string)
    requires Find(a, key) == None
    ensures Find(a + b + c + d, key) ==
            if Find(b, key).Some? then Find(b, key) else if Find(c, key).Some? then Find(c, key) else Find(d, key)
  {
    FindAppend(a + b + c, d, key);
    FindAppend(a + b, c, key);
    FindAppend(a, b, key);
  }

  lemma IntInjective(m: int, n: int)
    requires Int(m) == Int(n)
    ensures m == n
  {
    Json.PrintIntDigits(m);
    Json.PrintIntDigits(n);
    Json.DigitsOfNat(Json.Magnitude(m));
    Json.DigitsOfNat(Json.Magnitude(n));
  }

  lemma ImageInjective(i: ToolImageOutput, j: ToolImageOutput)
    requires ImageJson(Some(i)) == ImageJson(Some(j))
    ensures i == j
  {
    var f, g := ImageJson(Some(i)).value.fields, ImageJson(Some(j)).value.fields;
    assert f[0] == g[0] && f[1] == g[1] && f[2] == g[2] && f[3] == g[3] && f[4] == g[4] && f[5] == g[5];
    IntInjective(i.detail, j.detail);
    IntInjective(i.widthPX, j.widthPX);
    IntInjective(i.heightPX, j.heightPX);
  }

  lemma PairsInjective(m: map<string, string>, n: map<string, string>, ks: seq<string>, ls: seq<string>)
    requires SortedKeys.Elements(ks) == m.Keys && SortedKeys.Elements(ls) == n.Keys
    requires forall k :: k in ks ==> k in m
    requires forall l :: l in ls ==> l in n
    requires MetadataJson(ks, m) == MetadataJson(ls, n)
    ensures m == n
  {
    if ks != [] {
      var a, b := PairsJson(ks, m).items, PairsJson(ls, n).items;
      forall i | 0 <= i < |ks| ensures i < |ls| && ks[i] == ls[i] && m[ks[i]] == n[ls[i]] {
        assert a[i] == b[i];
        assert a[i].items[0] == b[i].items[0] && a[i].items[1] == b[i].items[1];
      }
      assert ks == ls;
    } else {
      assert m.Keys == {} && n.Keys == {};
    }
  }

  lemma ToolInjective(t: ToolOutputBody, u: ToolOutputBody)
    requires ToolJson(t, SortedKeys.OfSet(t.Entries().Keys)) == ToolJson(u, SortedKeys.OfSet(u.Entries().Keys))
    ensures t.(metadata := None) == u.(metadata := None) && t.Entries() == u.Entries()
  {
    var ks, ls := SortedKeys.OfSet(t.Entries().Keys), SortedKeys.OfSet(u.Entries().Keys);
    FindTool(t, ks);
    FindTool(u, ls);
    PairsInjective(t.Entries(), u.Entries(), ks, ls);
    if t.image.Some? {
      ImageInjective(t.image.value, u.image.value);
    }
    TextInjective("text", t.text, u.text);
    var f, g := ToolJson(t, ks).fields, ToolJson(u, ls).fields;
    assert f[0] == g[0] && f[1] == g[1];
  }

  lemma TextInjective(key: string, s: Option<string>, t: Option<string>)
    requires TextJson(key, s) == TextJson(key, t)
    ensures s == t
  {
    if s.Some? {
      assert TextJson(key, s).value.fields[0] == TextJson(key, t).value.fields[0];
    }
  }

  lemma BodyInjective(b: MessageBody, c: MessageBody)
    requires BodyJson(b) == BodyJson(c)
    ensures b.Normal() == c.Normal()
  {
    var tb := match b.toolOutput case None => None case Some(t) => Some(ToolJson(t, SortedKeys.OfSet(t.Entries().Keys)));
    var tc := match c.toolOutput case None => None case Some(t) => Some(ToolJson(t, SortedKeys.OfSet(t.Entries().Keys)));
    FindPayload(b.text, tb);
    FindPayload(c.text, tc);
    TextInjective("Text", b.text, c.text);
    if b.toolOutput.Some? {
      ToolInjective(b.toolOutput.value, c.toolOutput.value);
    }
  }

  lemma FindPayload(text: Option<string>, tool: Option<Json.Json>)
    ensures Find(PayloadJson(text, tool).fields, "text") == TextJson("Text", text)
    ensures Find(PayloadJson(text, tool).fields, "tool_output") == tool
  {
    var a, b := Member("text", TextJson("Text", text)), Member("tool_output", tool);
    FindAppend(a, b, "text");
    FindAppend(a, b, "tool_output");
    FindMember("text", "text", TextJson("Text", text));
    FindMember("tool_output", "text", TextJson("Text", text));
    FindMember("text", "tool_output", tool);
    FindMember("tool_output", "tool_output", tool);
  }

  predicate Scalar(v: Json.Json) {
    v.Str? || (v.Number? && Json.NumberLength(v.literal) == Some(|v.literal|))
  }

  lemma IntScalar(n: int)
    ensures Scalar(Int(n))
  {
    Json.PrintIntIsLiteral(n);
  }

  lemma ObjectPrintable(fields: seq<Json.Field>, depth: nat)
    requires depth >= 1 && forall k :: 0 <= k < |fields| ==> Scalar(fields[k].value)
    ensures Json.Printable(Json.Object(fields), depth)
  {
  }

  lemma ImageFieldsPrintable(
    url: Json.Json, mime: Json.Json, detail: Json.Json, width: Json.Json, height: Json.Json, sha: Json.Json, depth: nat)
    requires depth >= 1 && Scalar(url) && Scalar(mime) && Scalar(detail) && Scalar(width) && Scalar(height) && Scalar(sha)
    ensures Json.Printable(Json.Object(ImageFields(url, mime, detail, width, height, sha)), depth)
  {
    ObjectPrintable(ImageFields(url, mime, detail, width, height, sha), depth);
  }

  lemma ImagePrintable(i: ToolImageOutput, depth: nat)
    requires depth >= 1
    ensures Json.Printable(ImageJson(Some(i)).value, depth)
  {
    IntScalar(i.detail);
    IntScalar(i.widthPX);
    IntScalar(i.heightPX);
    ImageFieldsPrintable(
      Json.Str(i.externalURL), Json.Str(i.mimeType), Int(i.detail), Int(i.widthPX), Int(i.heightPX), Json.Str(i.sha256), depth);
  }

  lemma ToolPrintable(t: ToolOutputBody, keys: seq<string>, depth: nat)
    requires depth >= 3 && forall k :: k in keys ==> k in t.Entries()
    ensures Json.Printable(ToolJson(t, keys), depth)
  {
    if t.image.Some? {
      ImagePrintable(t.image.value, depth - 1);
    }
    assert keys != [] ==> Json.Printable(PairsJson(keys, t.Entries()), depth - 1);
  }

  lemma PayloadPrintable(text: Option<string>, tool: Option<Json.Json>, depth: nat)
    requires depth >= 2 && (tool.Some? ==> Json.Printable(tool.value, depth - 1))
    ensures Json.Printable(PayloadJson(text, tool), depth)
  {
    if text.Some? {
      ObjectPrintable([Json.Field("Text", Json.Str(text.value))], depth - 1);
    }
  }

  lemma BodyJsonPrintable(b: MessageBody)
    ensures Json.Printable(BodyJson(b), Json.MAX_DEPTH)
  {
    match b.toolOutput
    case None =>
      PayloadPrintable(b.text, None, Json.MAX_DEPTH);
    case Some(t) =>
      var keys := SortedKeys.OfSet(t.Entries().Keys);
      ToolPrintable(t, keys, Json.MAX_DEPTH - 1);
      PayloadPrintable(b.text, Some(ToolJson(t, keys)), Json.MAX_DEPTH);
  }

  /** Equal bytes exactly for equal content, nil and empty metadata being the same content. */
  lemma FingerprintExact(b: MessageBody, c: MessageBody)
    ensures DeterministicBytes(b) == DeterministicBytes(c) <==> b.Normal() == c.Normal()
  {
    BodyJsonPrintable(b);
    BodyJsonPrintable(c);
    Utf8.EncodeInjective(Json.Print(BodyJson(b)), Json.Print(BodyJson(c)));
    Json.PrintInjective(BodyJson(b), BodyJson(c));
    if BodyJson(b) == BodyJson(c) {
      BodyInjective(b, c);
    }
    if b.Normal() == c.Normal() {
      assert BodyJson(b) == BodyJson(b.Normal()) == BodyJson(c.Normal()) == BodyJson(c);
    }
  }
}
