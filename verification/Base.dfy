/** Vocabulary shared by every module: optional values, machine integers and identifiers. */
module Base {

  datatype Option<+T> = None | Some(value: T)

  /** The named errors of the store, validation and decoding errors, and what the database itself reports. */
  datatype Error =
    | EmptyRequest
    | ConversationNotFound
    | InvalidRangeSpec
    | MessageNotFound
    | DuplicateMessage
    | SnapshotNotFound
    | InvalidBody
    | UnreadableBody
    | InvalidPageToken
    | PageTokenMismatch
    | ConstraintViolation
    | DatabaseFailure

  datatype Result<+T> = Ok(value: T) | Err(error: Error)

  newtype byte = x: int | 0 <= x < 256

  const MAX_INT64: int := 0x7FFF_FFFF_FFFF_FFFF

  type int16 = x: int | -0x8000 <= x <= 0x7FFF
  type int32 = x: int | -0x8000_0000 <= x <= 0x7FFF_FFFF
  type int64 = x: int | -0x8000_0000_0000_0000 <= x <= MAX_INT64

  /** Sixteen bytes, the in-memory form of a UUID. */
  type Bytes16 = b: seq<byte> | |b| == 16 witness seq(16, i => 0)

  datatype UUID = UUID(bytes: Bytes16)

  /** An instant read from a clock; only ever copied. */
  type Time = int

  function Elements<T(==)>(s: seq<T>): set<T> {
    set x | x in s
  }

  ghost predicate NoDup<T>(s: seq<T>) {
    forall i, j :: 0 <= i < j < |s| ==> s[i] != s[j]
  }

  lemma NoDupConcat<T>(a: seq<T>, b: seq<T>)
    ensures NoDup(a + b) <==> NoDup(a) && NoDup(b) && Elements(a) !! Elements(b)
  {
    var s := a + b;
    if NoDup(s) {
      forall i, j | 0 <= i < j < |a| ensures a[i] != a[j] { assert s[i] != s[j]; }
      forall i, j | 0 <= i < j < |b| ensures b[i] != b[j] { assert s[|a| + i] != s[|a| + j]; }
      forall x | x in a ensures x !in b {
        var i :| 0 <= i < |a| && a[i] == x;
        forall j | 0 <= j < |b| ensures b[j] != x { assert s[i] != s[|a| + j]; }
      }
    }
    if NoDup(a) && NoDup(b) && Elements(a) !! Elements(b) {
      forall i, j | 0 <= i < j < |s| ensures s[i] != s[j] {
        if i < |a| <= j {
          assert a[i] in Elements(a) && b[j - |a|] in Elements(b);
        }
      }
    }
  }

  lemma ElementsConcat<T>(a: seq<T>, b: seq<T>)
    ensures Elements(a + b) == Elements(a) + Elements(b)
  {
  }
}
