/**
 * What replacing or deleting a range does to a conversation's order, and the in-place algorithm that
 * computes it (internal/state/range_ops.go).
 */
module RangeOps {
  import opened Base
  import opened GoSlice

  datatype ReplaceSpec = ReplaceSpec(fromID: Option<UUID>, toID: Option<UUID>, insertIDs: seq<UUID>)

  datatype DeleteSpec = DeleteSpec(fromID: Option<UUID>, toID: Option<UUID>)

  datatype Replacement = Replacement(order: seq<UUID>, replaced: seq<UUID>)

  datatype Deletion = Deletion(remaining: seq<UUID>, deleted: seq<UUID>)

  // ---------------------------------------------------------------- specification

  /** The index map built from left to right: a repeated id keeps its last index. */
  function IndexMap(order: seq<UUID>): (m: map<UUID, nat>)
    ensures forall id :: id in m ==> m[id] < |order|
  {
    if order == [] then map[]
    else
      var last := |order| - 1;
      IndexMap(order[..last])[order[last] := last]
  }

  /** The half-open range [lo, hi) of the order that gives way to the inserted ids. */
  function BoundsIn(m: map<UUID, nat>, spec: ReplaceSpec): (r: Result<(nat, nat)>)
    ensures r.Ok? ==> r.value.0 <= r.value.1
  {
    if spec.fromID.Some? && spec.toID.Some? then
      var from, to := spec.fromID.value, spec.toID.value;
      if from !in m || to !in m then Err(MessageNotFound)
      else if m[from] > m[to] then Err(InvalidRangeSpec)
      else Ok((m[from], m[to] + 1))
    else if spec.fromID.Some? then
      var from := spec.fromID.value;
      if from !in m then Err(MessageNotFound)
      else if spec.insertIDs == [] then Err(InvalidRangeSpec)
      else Ok((m[from] + 1, m[from] + 1))
    else if spec.toID.Some? then
      var to := spec.toID.value;
      if to !in m then Err(MessageNotFound)
      else if spec.insertIDs == [] then Err(InvalidRangeSpec)
      else Ok((m[to], m[to]))
    else Err(InvalidRangeSpec)
  }

  function ReplaceBounds(order: seq<UUID>, spec: ReplaceSpec): (r: Result<(nat, nat)>)
    ensures r.Ok? ==> r.value.0 <= r.value.1 <= |order|
  {
    BoundsIn(IndexMap(order), spec)
  }

  /** `stored` holds the ids of the messages kept for the conversation, listed or not. */
  ghost function ReplaceOutcome(order: seq<UUID>, stored: set<UUID>, spec: ReplaceSpec): Result<Replacement> {
    match ReplaceBounds(order, spec)
    case Err(e) => Err(e)
    case Ok((lo, hi)) =>
      var target := order[..lo] + spec.insertIDs + order[hi..];
      if !(Elements(spec.insertIDs) <= stored) then Err(MessageNotFound)
      else if !NoDup(target) then Err(DuplicateMessage)
      else Ok(Replacement(target, order[lo..hi]))
  }

  /** A missing bound means the respective end of a non-empty order. */
  function DeleteOutcome(order: seq<UUID>, spec: DeleteSpec): Result<Deletion> {
    var m := IndexMap(order);
    if spec.fromID.None? && spec.toID.None? then Err(InvalidRangeSpec)
    else if order == [] then Err(InvalidRangeSpec)
    else if spec.fromID.Some? && spec.fromID.value !in m then Err(MessageNotFound)
    else if spec.toID.Some? && spec.toID.value !in m then Err(MessageNotFound)
    else
      var from: nat := if spec.fromID.Some? then m[spec.fromID.value] else 0;
      var to: nat := if spec.toID.Some? then m[spec.toID.value] else |order| - 1;
      if from > to then Err(InvalidRangeSpec)
      else Ok(Deletion(order[..from] + order[to + 1..], order[from..to + 1]))
  }

  // ---------------------------------------------------------------- algorithm

  method BuildIndexMap(order: seq<UUID>) returns (indexMap: map<UUID, nat>)
    ensures indexMap == IndexMap(order)
  {
    indexMap := map[];
    for idx := 0 to |order|
      invariant indexMap == IndexMap(order[..idx])
    {
      indexMap := indexMap[order[idx] := idx];
      assert order[..idx + 1][..idx] == order[..idx];
    }
    assert order[..|order|] == order;
  }

  /**
   * Shifts the tail left inside the same array. `replaced` is copied first, so it keeps the original ids.
   */
  method RemoveRange(working: Slice<UUID>, lo: nat, hi: nat) returns (r: Slice<UUID>, replaced: seq<UUID>)
    requires working.Valid() && lo <= hi <= working.len
    modifies working.buf
    ensures r.Valid() && (r.buf == working.buf || fresh(r.buf))
    ensures r.View() == old(working.View())[..lo] + old(working.View())[hi..]
    ensures replaced == old(working.View())[lo..hi]
  {
    var cut := working.Sub(lo, hi);
    working.SubView(0, lo);
    working.SubView(lo, hi);
    working.SubView(hi, working.len);
    replaced := cut.buf[cut.off..cut.off + cut.len];
    r := Append(working.Sub(0, lo), working.Sub(hi, working.len));
    assert old(working.View())[hi..] == old(working.View())[hi..working.len];
  }

  /** Resolves the bounds and cuts the range out of a private copy of the order. */
  method CutRange(order: seq<UUID>, spec: ReplaceSpec)
    returns (r: Result<nat>, working: Slice<UUID>, replaced: seq<UUID>)
    ensures working.Valid() && fresh(working.buf)
    ensures match ReplaceBounds(order, spec)
            case Err(e) => r == Err(e)
            case Ok((lo, hi)) => r == Ok(lo) && working.View() == order[..lo] + order[hi..] && replaced == order[lo..hi]
  {
    var indexMap := BuildIndexMap(order);
    working := Make(order);
    replaced := [];
    match BoundsIn(indexMap, spec)
    case Err(e) =>
      r := Err(e);
    case Ok((lo, hi)) =>
      if spec.fromID.Some? && spec.toID.Some? {
        working, replaced := RemoveRange(working, lo, hi);
      } else {
        assert order == order[..lo] + order[hi..] && order[lo..hi] == [];
      }
      r := Ok(lo);
  }

  /**
   * The nested append: the tail is first copied behind the new ids in a separate array, so writing
   * them back over the same tail loses nothing.
   */
  method InsertAt(working: Slice<UUID>, insertPos: nat, ids: seq<UUID>) returns (r: Slice<UUID>)
    requires working.Valid() && insertPos <= working.len
    modifies working.buf
    ensures r.Valid() && (r.buf == working.buf || fresh(r.buf))
    ensures r.View() == old(working.View())[..insertPos] + ids + old(working.View())[insertPos..]
  {
    ghost var was := working.View();
    working.SubView(0, insertPos);
    working.SubView(insertPos, working.len);
    assert was[insertPos..working.len] == was[insertPos..];
    var idsCopy := Make(ids);
    var tail := Append(idsCopy, working.Sub(insertPos, working.len));
    assert tail.View() == ids + was[insertPos..];
    r := Append(working.Sub(0, insertPos), tail);
    assert was[..insertPos] + (ids + was[insertPos..]) == was[..insertPos] + ids + was[insertPos..];
  }

  /** The range to delete and what is left of the order. */
  method PlanDeletion(order: seq<UUID>, spec: DeleteSpec) returns (r: Result<Deletion>)
    requires spec.fromID.Some? || spec.toID.Some?
    ensures r == DeleteOutcome(order, spec)
  {
    var indexMap := BuildIndexMap(order);
    if order == [] {
      return Err(InvalidRangeSpec);
    }
    var fromIdx, toIdx := 0, |order| - 1;
    if spec.fromID.Some? {
      if spec.fromID.value !in indexMap {
        return Err(MessageNotFound);
      }
      fromIdx := indexMap[spec.fromID.value];
    }
    if spec.toID.Some? {
      if spec.toID.value !in indexMap {
        return Err(MessageNotFound);
      }
      toIdx := indexMap[spec.toID.value];
    }
    if fromIdx > toIdx {
      return Err(InvalidRangeSpec);
    }
    var deleted := order[fromIdx..toIdx + 1];
    var remaining := order[..fromIdx];
    remaining := remaining + order[toIdx + 1..];
    r := Ok(Deletion(remaining, deleted));
  }

  method EnsureUnique(ids: seq<UUID>) returns (ok: bool)
    ensures ok <==> NoDup(ids)
  {
    var seen: set<UUID> := {};
    for i := 0 to |ids|
      invariant seen == Elements(ids[..i]) && NoDup(ids[..i])
    {
      assert ids[..i + 1] == ids[..i] + [ids[i]];
      if ids[i] in seen {
        var j :| 0 <= j < i && ids[j] == ids[i];
        return false;
      }
      seen := seen + {ids[i]};
    }
    assert ids[..|ids|] == ids;
    ok := true;
  }

  /** `rows` is what the query over the distinct ids returns. */
  method EnsureMessagesExist(stored: set<UUID>, ids: seq<UUID>) returns (ok: bool)
    ensures ok <==> Elements(ids) <= stored
  {
    var presence: map<UUID, bool> := map[];
    for i := 0 to |ids|
      invariant presence.Keys == Elements(ids[..i])
      invariant forall id :: id in presence ==> !presence[id]
    {
      assert ids[..i + 1] == ids[..i] + [ids[i]];
      presence := presence[ids[i] := false];
    }
    assert ids[..|ids|] == ids;
    var rows := set id | id in presence.Keys && id in stored;
    ghost var found := rows;
    while rows != {}
      invariant rows <= found && presence.Keys == Elements(ids)
      invariant forall id :: id in presence ==> (presence[id] <==> id in found - rows)
    {
      var id :| id in rows;
      rows := rows - {id};
      presence := presence[id := true];
    }
    ok := forall id :: id in presence ==> presence[id];
    assert ok <==> forall id :: id in Elements(ids) ==> id in found;
  }
}
