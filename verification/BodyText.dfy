/**
 * The text a snapshot hashes, spelled out (internal/state/types.go:91-152): read back as JSON it has the
 * fields of the body under the source's names and in the source's order, metadata as pairs with ascending keys.
 */
module BodyText {
  import opened Base
  import opened Body
  import Json
  import JsonText
  import SortedKeys
  import Utf8

  // ---------------------------------------------------------------- what the text must say

  /** An object with exactly these member names, in this order. */
  ghost predicate HasNames(j: Json.Json, names: seq<string>) {
    && j.Object? && |j.fields| == |names|
    && forall i :: 0 <= i < |names| ==> j.fields[i].key == names[i]
  }

  ghost predicate IsString(j: Json.Json, text: string) {
    j.Str? && j.text == text
  }

  ghost predicate IsInteger(j: Json.Json, n: int) {
    j.Number? && Json.ParseInt64(j.literal) == Some(n)
  }

  ghost predicate IsPair(j: Json.Json, key: string, value: string) {
    j.Array? && |j.items| == 2 && IsString(j.items[0], key) && IsString(j.items[1], value)
  }

  /** String order: a proper prefix comes first, and otherwise the first difference decides. */
  ghost predicate Before(a: string, b: string) {
    exists n :: 0 <= n <= |a| && n <= |b| && a[..n] == b[..n] && n < |b| && (n == |a| || (n < |a| && a[n] < b[n]))
  }

  /** One pair for each entry, keys ascending. */
  ghost predicate ListsEntries(j: Json.Json, m: map<string, string>) {
    && j.Array? && |j.items| == |m|
    && exists keys: seq<string> ::
         && |keys| == |m|
         && (forall i, k :: 0 <= i < k < |keys| ==> Before(keys[i], keys[k]))
         && (forall i :: 0 <= i < |keys| ==> keys[i] in m && IsPair(j.items[i], keys[i], m[keys[i]]))
  }

  ghost predicate IsText(j: Json.Json, name: string, text: string) {
    HasNames(j, [name]) && IsString(j.fields[0].value, text)
  }

  ghost predicate IsImage(j: Json.Json, i: ToolImageOutput) {
    && HasNames(j, ["external_url", "mime_type", "detail", "width_px", "height_px", "sha256"])
    && IsString(j.fields[0].value, i.externalURL) && IsString(j.fields[1].value, i.mimeType)
    && IsInteger(j.fields[2].value, i.detail) && IsInteger(j.fields[3].value, i.widthPX)
    && IsInteger(j.fields[4].value, i.heightPX) && IsString(j.fields[5].value, i.sha256)
  }

  ghost predicate IsToolMember(f: Json.Field, t: ToolOutputBody) {
    && (f.key == "tool_name" ==> IsString(f.value, t.toolName))
    && (f.key == "tool_call_id" ==> IsString(f.value, t.toolCallID))
    && (f.key == "metadata" ==> t.metadata.Some? && ListsEntries(f.value, t.metadata.value))
    && (f.key == "text" ==> t.text.Some? && IsText(f.value, "text", t.text.value))
    && (f.key == "image" ==> t.image.Some? && IsImage(f.value, t.image.value))
  }

  ghost predicate IsTool(j: Json.Json, t: ToolOutputBody) {
    && HasNames(j, ["tool_name", "tool_call_id"]
                   + (if t.metadata.Some? && t.metadata.value != map[] then ["metadata"] else [])
                   + (if t.text.Some? then ["text"] else [])
                   + (if t.image.Some? then ["image"] else []))
    && forall i :: 0 <= i < |j.fields| ==> IsToolMember(j.fields[i], t)
  }

  /** A text body keeps the Go name of its field. */
  ghost predicate IsBody(j: Json.Json, b: MessageBody) {
    && HasNames(j, (if b.text.Some? then ["text"] else []) + (if b.toolOutput.Some? then ["tool_output"] else []))
    && forall i :: 0 <= i < |j.fields| ==>
         && (j.fields[i].key == "text" ==> b.text.Some? && IsText(j.fields[i].value, "Text", b.text.value))
         && (j.fields[i].key == "tool_output" ==> b.toolOutput.Some? && IsTool(j.fields[i].value, b.toolOutput.value))
  }

  // ---------------------------------------------------------------- what it says

  lemma SameHead(a: string, b: string, n: nat)
    requires 0 < n <= |a| && n <= |b| && a[..n] == b[..n]
    ensures a[0] == b[0]
  {
    assert a[..n][0] == b[..n][0];
  }

  lemma {:induction false} LessIsBefore(a: string, b: string)
    ensures SortedKeys.Less(a, b) <==> Before(a, b)
  {
    if b != "" && a != "" && a[0] == b[0] {
      LessIsBefore(a[1..], b[1..]);
      if Before(a[1..], b[1..]) {
        var n :| 0 <= n <= |a[1..]| && n <= |b[1..]| && a[1..][..n] == b[1..][..n] && n < |b[1..]|
                 && (n == |a[1..]| || (n < |a[1..]| && a[1..][n] < b[1..][n]));
        assert a[..n + 1] == [a[0]] + a[1..][..n] && b[..n + 1] == [b[0]] + b[1..][..n];
      }
      if Before(a, b) {
        var n :| 0 <= n <= |a| && n <= |b| && a[..n] == b[..n] && n < |b| && (n == |a| || (n < |a| && a[n] < b[n]));
        assert n > 0;
        assert a[1..][..n - 1] == a[..n][1..] && b[1..][..n - 1] == b[..n][1..];
      }
    } else if b != "" && (a == "" || a[0] < b[0]) {
      assert a[..0] == b[..0];
    } else if Before(a, b) {
      var n :| 0 <= n <= |a| && n <= |b| && a[..n] == b[..n] && n < |b| && (n == |a| || (n < |a| && a[n] < b[n]));
      if n > 0 {
        SameHead(a, b, n);
      }
    }
  }

  lemma IntegerReads(n: int)
    requires -0x8000_0000_0000_0000 <= n <= MAX_INT64
    ensures IsInteger(Int(n), n)
  {
    Json.ParsePrintInt64(n);
  }

  lemma ImageNames(
    url: Json.Json, mime: Json.Json, detail: Json.Json, width: Json.Json, height: Json.Json, sha: Json.Json)
    ensures var j := Json.Object(ImageFields(url, mime, detail, width, height, sha));
            && HasNames(j, ["external_url", "mime_type", "detail", "width_px", "height_px", "sha256"])
            && j.fields[0].value == url && j.fields[1].value == mime && j.fields[2].value == detail
            && j.fields[3].value == width && j.fields[4].value == height && j.fields[5].value == sha
  {
  }

  lemma ImageReads(i: ToolImageOutput)
    ensures IsImage(ImageJson(Some(i)).value, i)
  {
    IntegerReads(i.detail);
    IntegerReads(i.widthPX);
    IntegerReads(i.heightPX);
    ImageNames(Json.Str(i.externalURL), Json.Str(i.mimeType), Int(i.detail), Int(i.widthPX), Int(i.heightPX), Json.Str(i.sha256));
  }

  lemma PairsRead(m: map<string, string>)
    requires m != map[]
    ensures var keys := SortedKeys.OfSet(m.Keys);
            && (forall k :: k in keys ==> k in m) && MetadataJson(keys, m).Some? && ListsEntries(MetadataJson(keys, m).value, m)
  {
    var keys := SortedKeys.OfSet(m.Keys);
    KeysMatch(m);
    var j := PairsJson(keys, m);
    forall i, k | 0 <= i < k < |keys| ensures Before(keys[i], keys[k]) {
      LessIsBefore(keys[i], keys[k]);
    }
    forall i | 0 <= i < |keys| ensures keys[i] in m && IsPair(j.items[i], keys[i], m[keys[i]]) { }
  }

  lemma KeysMatch(m: map<string, string>)
    ensures var keys := SortedKeys.OfSet(m.Keys);
            |keys| == |m| && (forall k :: k in keys <==> k in m) && (keys == [] <==> m == map[])
  {
    var keys := SortedKeys.OfSet(m.Keys);
    forall k ensures k in keys <==> k in m {
      assert k in SortedKeys.Elements(keys) <==> k in m.Keys;
    }
    AscendingLength(keys, m.Keys);
    assert keys == [] ==> m.Keys == {};
  }

  lemma {:induction false} AscendingLength(keys: seq<string>, s: set<string>)
    requires SortedKeys.Ascending(keys) && SortedKeys.Elements(keys) == s
    ensures |keys| == |s|
  {
    if keys != [] {
      var last := |keys| - 1;
      var init := keys[..last];
      assert keys == init + [keys[last]];
      forall i | 0 <= i < last ensures init[i] != keys[last] {
        SortedKeys.LessTotal(keys[i], keys[last]);
      }
      assert SortedKeys.Elements(init) == s - {keys[last]};
      AscendingLength(init, s - {keys[last]});
    } else {
      assert s == {};
    }
  }

  lemma ToolReads(t: ToolOutputBody)
    ensures var keys := SortedKeys.OfSet(t.Entries().Keys);
            (forall k :: k in keys ==> k in t.Entries()) && IsTool(ToolJson(t, keys), t)
  {
    var keys := SortedKeys.OfSet(t.Entries().Keys);
    KeysMatch(t.Entries());
    if t.Entries() != map[] {
      PairsRead(t.Entries());
    }
    if t.image.Some? {
      ImageReads(t.image.value);
    }
    ToolMembers(t, keys);
  }

  function Names(fields: seq<Json.Field>): seq<string> {
    seq(|fields|, i requires 0 <= i < |fields| => fields[i].key)
  }

  lemma NamesConcat(a: seq<Json.Field>, b: seq<Json.Field>)
    ensures Names(a + b) == Names(a) + Names(b)
  {
  }

  ghost predicate AllMembers(fields: seq<Json.Field>, t: ToolOutputBody) {
    forall i :: 0 <= i < |fields| ==> IsToolMember(fields[i], t)
  }

  lemma MembersConcat(a: seq<Json.Field>, b: seq<Json.Field>, t: ToolOutputBody)
    requires AllMembers(a, t) && AllMembers(b, t)
    ensures AllMembers(a + b, t)
  {
  }

  lemma HeadMembers(t: ToolOutputBody)
    ensures var head := [Json.Field("tool_name", Json.Str(t.toolName)), Json.Field("tool_call_id", Json.Str(t.toolCallID))];
            AllMembers(head, t) && Names(head) == ["tool_name", "tool_call_id"]
  {
  }

  lemma MetadataMember(t: ToolOutputBody, keys: seq<string>)
    requires forall k :: k in keys ==> k in t.Entries()
    requires keys == [] <==> t.Entries() == map[]
    requires keys != [] ==> ListsEntries(MetadataJson(keys, t.Entries()).value, t.Entries())
    ensures var f := Member("metadata", MetadataJson(keys, t.Entries()));
            && AllMembers(f, t)
            && Names(f) == if t.metadata.Some? && t.metadata.value != map[] then ["metadata"] else []
  {
  }

  lemma TextMember(t: ToolOutputBody)
    ensures var f := Member("text", TextJson("text", t.text));
            AllMembers(f, t) && Names(f) == if t.text.Some? then ["text"] else []
  {
  }

  lemma ImageMember(t: ToolOutputBody)
    requires t.image.Some? ==> IsImage(ImageJson(t.image).value, t.image.value)
    ensures var f := Member("image", ImageJson(t.image));
            AllMembers(f, t) && Names(f) == if t.image.Some? then ["image"] else []
  {
  }

  lemma ToolMembers(t: ToolOutputBody, keys: seq<string>)
    requires forall k :: k in keys ==> k in t.Entries()
    requires keys == [] <==> t.Entries() == map[]
    requires keys != [] ==> ListsEntries(MetadataJson(keys, t.Entries()).value, t.Entries())
    requires t.image.Some? ==> IsImage(ImageJson(t.image).value, t.image.value)
    ensures IsTool(ToolJson(t, keys), t)
  {
    var head := [Json.Field("tool_name", Json.Str(t.toolName)), Json.Field("tool_call_id", Json.Str(t.toolCallID))];
    var meta := Member("metadata", MetadataJson(keys, t.Entries()));
    var text, image := Member("text", TextJson("text", t.text)), Member("image", ImageJson(t.image));
    HeadMembers(t);
    MetadataMember(t, keys);
    TextMember(t);
    ImageMember(t);
    Pieces(t, head, meta, text, image);
    FromNames(ToolJson(t, keys), Names(head) + Names(meta) + Names(text) + Names(image));
  }

  lemma Pieces(t: ToolOutputBody, a: seq<Json.Field>, b: seq<Json.Field>, c: seq<Json.Field>, d: seq<Json.Field>)
    requires AllMembers(a, t) && AllMembers(b, t) && AllMembers(c, t) && AllMembers(d, t)
    ensures AllMembers(a + b + c + d, t) && Names(a + b + c + d) == Names(a) + Names(b) + Names(c) + Names(d)
  {
    MembersConcat(a, b, t);
    MembersConcat(a + b, c, t);
    MembersConcat(a + b + c, d, t);
    NamesConcat(a, b);
    NamesConcat(a + b, c);
    NamesConcat(a + b + c, d);
  }

  lemma FromNames(j: Json.Json, names: seq<string>)
    requires j.Object? && Names(j.fields) == names
    ensures HasNames(j, names)
  {
    forall i | 0 <= i < |names| ensures j.fields[i].key == names[i] {
      assert Names(j.fields)[i] == j.fields[i].key;
    }
  }

  lemma BodyReads(b: MessageBody)
    ensures IsBody(BodyJson(b), b)
  {
    if b.toolOutput.Some? {
      ToolReads(b.toolOutput.value);
    }
  }

  /** Read back, the hashed bytes are the fields of the body, by name and in order. */
  lemma BytesSayBody(b: MessageBody)
    ensures var j := Json.Parse(Utf8.Decode(DeterministicBytes(b)));
            j.Some? && IsBody(j.value, b)
  {
    BodyJsonPrintable(b);
    Json.ParsePrint(BodyJson(b));
    Utf8.DecodeEncode(Json.Print(BodyJson(b)));
    BodyReads(b);
  }

  /** The hashed text holds no control, HTML or line separator character, and no space outside strings. */
  lemma BytesAreCompact(b: MessageBody)
    ensures var text := Utf8.Decode(DeterministicBytes(b));
            && Utf8.Encode(text) == DeterministicBytes(b) && Json.Parse(text).Some?
            && JsonText.Neat(text, JsonText.SpacesIn(Json.Parse(text).value))
  {
    BodyJsonPrintable(b);
    Json.ParsePrint(BodyJson(b));
    Utf8.DecodeEncode(Json.Print(BodyJson(b)));
    JsonText.PrintIsNeat(BodyJson(b), Json.MAX_DEPTH);
  }
}
