/** Laws of the range operations: the complete outcome, undoing a replacement, deletion against replacement. */
module RangeLaws {
  import opened Base
  import opened RangeOps

  lemma {:induction false} IndexMapFacts(order: seq<UUID>, id: UUID)
    ensures id in IndexMap(order) <==> id in order
    ensures id in IndexMap(order) ==> order[IndexMap(order)[id]] == id
  {
    if order != [] {
      var last := |order| - 1;
      IndexMapFacts(order[..last], id);
      assert order == order[..last] + [order[last]];
    }
  }

  lemma IndexOfElement(order: seq<UUID>, i: nat)
    requires NoDup(order) && i < |order|
    ensures order[i] in IndexMap(order) && IndexMap(order)[order[i]] == i
  {
    assert order[i] in order;
    IndexMapFacts(order, order[i]);
  }

  lemma Parts(pre: seq<UUID>, mid: seq<UUID>, post: seq<UUID>)
    ensures var o := pre + mid + post;
            && o[..|pre|] == pre && o[|pre|..|pre| + |mid|] == mid && o[|pre| + |mid|..] == post
            && (pre != [] ==> o[|pre| - 1] == pre[|pre| - 1])
            && (mid != [] ==> o[|pre|] == mid[0] && o[|pre| + |mid| - 1] == mid[|mid| - 1])
            && (post != [] ==> o[|pre| + |mid|] == post[0])
  {
  }

  lemma NoDupParts(pre: seq<UUID>, mid: seq<UUID>, post: seq<UUID>)
    ensures NoDup(pre + mid + post) <==>
            && NoDup(pre) && NoDup(mid) && NoDup(post)
            && Elements(pre) !! Elements(mid) && Elements(pre) !! Elements(post) && Elements(mid) !! Elements(post)
    ensures Elements(pre + mid + post) == Elements(pre) + Elements(mid) + Elements(post)
  {
    NoDupConcat(pre + mid, post);
    NoDupConcat(pre, mid);
    ElementsConcat(pre + mid, post);
    ElementsConcat(pre, mid);
  }

  /** The order splits into what stays before, what is replaced and what stays after, as the bounds say. */
  ghost predicate Fits(order: seq<UUID>, spec: ReplaceSpec, pre: seq<UUID>, mid: seq<UUID>, post: seq<UUID>) {
    && order == pre + mid + post
    && (spec.fromID.Some? && spec.toID.Some? ==> mid != [] && mid[0] == spec.fromID.value && mid[|mid| - 1] == spec.toID.value)
    && (spec.fromID.Some? && spec.toID.None? ==>
          mid == [] && pre != [] && pre[|pre| - 1] == spec.fromID.value && spec.insertIDs != [])
    && (spec.fromID.None? && spec.toID.Some? ==>
          mid == [] && post != [] && post[0] == spec.toID.value && spec.insertIDs != [])
    && (spec.fromID.Some? || spec.toID.Some?)
  }

  predicate Missing(order: seq<UUID>, bound: Option<UUID>) {
    bound.Some? && bound.value !in order
  }

  ghost predicate BoundMissing(order: seq<UUID>, spec: ReplaceSpec) {
    Missing(order, spec.fromID) || Missing(order, spec.toID)
  }

  lemma BetweenBounds(order: seq<UUID>, spec: ReplaceSpec, lo: nat, hi: nat)
    requires NoDup(order) && lo < hi <= |order|
    requires spec.fromID == Some(order[lo]) && spec.toID == Some(order[hi - 1])
    ensures ReplaceBounds(order, spec) == Ok((lo, hi))
  {
    IndexOfElement(order, lo);
    IndexOfElement(order, hi - 1);
  }

  lemma BehindBound(order: seq<UUID>, spec: ReplaceSpec, lo: nat)
    requires NoDup(order) && 0 < lo <= |order| && spec.insertIDs != []
    requires spec.fromID == Some(order[lo - 1]) && spec.toID == None
    ensures ReplaceBounds(order, spec) == Ok((lo, lo))
  {
    IndexOfElement(order, lo - 1);
  }

  lemma BeforeBound(order: seq<UUID>, spec: ReplaceSpec, lo: nat)
    requires NoDup(order) && lo < |order| && spec.insertIDs != []
    requires spec.fromID == None && spec.toID == Some(order[lo])
    ensures ReplaceBounds(order, spec) == Ok((lo, lo))
  {
    IndexOfElement(order, lo);
  }

  /** There is at most one way to split a duplicate-free order, and the code finds it. */
  lemma FitsAreBounds(order: seq<UUID>, spec: ReplaceSpec, pre: seq<UUID>, mid: seq<UUID>, post: seq<UUID>)
    requires NoDup(order) && Fits(order, spec, pre, mid, post)
    ensures ReplaceBounds(order, spec) == Ok((|pre|, |pre| + |mid|))
    ensures order[..|pre|] == pre && order[|pre|..|pre| + |mid|] == mid && order[|pre| + |mid|..] == post
  {
    Parts(pre, mid, post);
    if spec.fromID.Some? && spec.toID.Some? {
      BetweenBounds(order, spec, |pre|, |pre| + |mid|);
    } else if spec.fromID.Some? {
      BehindBound(order, spec, |pre|);
    } else {
      BeforeBound(order, spec, |pre|);
    }
  }

  lemma Reassemble(order: seq<UUID>, lo: nat, hi: nat)
    requires lo <= hi <= |order|
    ensures order == order[..lo] + order[lo..hi] + order[hi..]
  {
  }

  lemma IndexFacts(order: seq<UUID>, spec: ReplaceSpec)
    ensures var m := IndexMap(order);
            && (spec.fromID.Some? ==>
                  var id := spec.fromID.value;
                  (id in m <==> id in order) && (id in m ==> order[m[id]] == id))
            && (spec.toID.Some? ==>
                  var id := spec.toID.value;
                  (id in m <==> id in order) && (id in m ==> order[m[id]] == id))
  {
    if spec.fromID.Some? {
      IndexMapFacts(order, spec.fromID.value);
    }
    if spec.toID.Some? {
      IndexMapFacts(order, spec.toID.value);
    }
  }

  lemma RangeFits(order: seq<UUID>, spec: ReplaceSpec, lo: nat, hi: nat)
    requires lo <= hi <= |order| && (spec.fromID.Some? || spec.toID.Some?)
    requires spec.fromID.Some? && spec.toID.Some? ==>
               lo < hi && order[lo] == spec.fromID.value && order[hi - 1] == spec.toID.value
    requires spec.fromID.None? || spec.toID.None? ==> lo == hi && spec.insertIDs != []
    requires spec.fromID.Some? && spec.toID.None? ==> lo > 0 && order[lo - 1] == spec.fromID.value
    requires spec.fromID.None? && spec.toID.Some? ==> lo < |order| && order[lo] == spec.toID.value
    ensures Fits(order, spec, order[..lo], order[lo..hi], order[hi..])
  {
    Reassemble(order, lo, hi);
  }

  lemma BoundsFit(order: seq<UUID>, spec: ReplaceSpec)
    requires ReplaceBounds(order, spec).Ok?
    ensures var b := ReplaceBounds(order, spec).value;
            Fits(order, spec, order[..b.0], order[b.0..b.1], order[b.1..])
  {
    var b := ReplaceBounds(order, spec).value;
    IndexFacts(order, spec);
    RangeFits(order, spec, b.0, b.1);
  }

  lemma NoFitError(order: seq<UUID>, spec: ReplaceSpec)
    requires ReplaceBounds(order, spec).Err?
    ensures ReplaceBounds(order, spec).error == if BoundMissing(order, spec) then MessageNotFound else InvalidRangeSpec
  {
    IndexFacts(order, spec);
  }

  /** Without a fitting split the error says whether a bound is missing. */
  lemma ReplaceWithoutFit(order: seq<UUID>, stored: set<UUID>, spec: ReplaceSpec)
    requires forall pre, mid, post :: !Fits(order, spec, pre, mid, post)
    ensures ReplaceOutcome(order, stored, spec) ==
            Err(if BoundMissing(order, spec) then MessageNotFound else InvalidRangeSpec)
  {
    if ReplaceBounds(order, spec).Ok? {
      BoundsFit(order, spec);
    } else {
      NoFitError(order, spec);
    }
  }

  /** With one the inserted ids must all be stored, and then make a list without repeats. */
  lemma ReplaceWithFit(
    order: seq<UUID>, stored: set<UUID>, spec: ReplaceSpec, pre: seq<UUID>, mid: seq<UUID>, post: seq<UUID>)
    requires NoDup(order) && Fits(order, spec, pre, mid, post)
    ensures ReplaceOutcome(order, stored, spec) ==
            if !(Elements(spec.insertIDs) <= stored) then Err(MessageNotFound)
            else if NoDup(spec.insertIDs) && Elements(spec.insertIDs) !! Elements(pre) + Elements(post)
            then Ok(Replacement(pre + spec.insertIDs + post, mid))
            else Err(DuplicateMessage)
  {
    FitsAreBounds(order, spec, pre, mid, post);
    NoDupParts(pre, mid, post);
    NoDupParts(pre, spec.insertIDs, post);
  }

  lemma OutcomeParts(order: seq<UUID>, stored: set<UUID>, spec: ReplaceSpec)
    returns (pre: seq<UUID>, mid: seq<UUID>, post: seq<UUID>)
    requires NoDup(order) && ReplaceOutcome(order, stored, spec).Ok?
    ensures Fits(order, spec, pre, mid, post)
    ensures ReplaceBounds(order, spec) == Ok((|pre|, |pre| + |mid|))
    ensures ReplaceOutcome(order, stored, spec) == Ok(Replacement(pre + spec.insertIDs + post, mid))
    ensures NoDup(pre + spec.insertIDs + post) && Elements(spec.insertIDs) <= stored
  {
    var b := ReplaceBounds(order, spec).value;
    BoundsFit(order, spec);
    pre, mid, post := order[..b.0], order[b.0..b.1], order[b.1..];
  }

  /** A non-empty replacement is undone by putting the returned ids back between its first and last id. */
  lemma ReplaceUndo(order: seq<UUID>, stored: set<UUID>, spec: ReplaceSpec)
    requires NoDup(order) && Elements(order) <= stored && spec.insertIDs != []
    requires ReplaceOutcome(order, stored, spec).Ok?
    ensures var rep := ReplaceOutcome(order, stored, spec).value;
            var undo := ReplaceSpec(Some(spec.insertIDs[0]), Some(spec.insertIDs[|spec.insertIDs| - 1]), rep.replaced);
            ReplaceOutcome(rep.order, stored, undo) == Ok(Replacement(order, spec.insertIDs))
  {
    var ids := spec.insertIDs;
    var pre, mid, post := OutcomeParts(order, stored, spec);
    var undo := ReplaceSpec(Some(ids[0]), Some(ids[|ids| - 1]), mid);
    NoDupParts(pre, mid, post);
    ReplaceWithFit(pre + ids + post, stored, undo, pre, ids, post);
  }

  lemma PutBack(pre: seq<UUID>, mid: seq<UUID>, post: seq<UUID>, stored: set<UUID>, undo: ReplaceSpec)
    requires NoDup(pre + mid + post) && Elements(pre + mid + post) <= stored && undo.insertIDs == mid
    requires Fits(pre + [] + post, undo, pre, [], post)
    ensures ReplaceOutcome(pre + [] + post, stored, undo) == Ok(Replacement(pre + mid + post, []))
  {
    NoDupParts(pre, mid, post);
    NoDupParts(pre, [], post);
    ReplaceWithFit(pre + [] + post, stored, undo, pre, [], post);
  }

  /** A pure removal is undone by inserting the returned ids next to either neighbour that is left. */
  lemma RemovalUndo(order: seq<UUID>, stored: set<UUID>, spec: ReplaceSpec)
    requires NoDup(order) && Elements(order) <= stored && spec.insertIDs == []
    requires ReplaceOutcome(order, stored, spec).Ok?
    ensures var rep := ReplaceOutcome(order, stored, spec).value;
            var (lo, hi) := ReplaceBounds(order, spec).value;
            && (lo > 0 ==>
                  ReplaceOutcome(rep.order, stored, ReplaceSpec(Some(order[lo - 1]), None, rep.replaced)) == Ok(Replacement(order, [])))
            && (hi < |order| ==>
                  ReplaceOutcome(rep.order, stored, ReplaceSpec(None, Some(order[hi]), rep.replaced)) == Ok(Replacement(order, [])))
  {
    var pre, mid, post := OutcomeParts(order, stored, spec);
    Parts(pre, mid, post);
    if pre != [] {
      PutBack(pre, mid, post, stored, ReplaceSpec(Some(pre[|pre| - 1]), None, mid));
    }
    if post != [] {
      PutBack(pre, mid, post, stored, ReplaceSpec(None, Some(post[0]), mid));
    }
  }

  lemma NeighbourUndo(order: seq<UUID>, stored: set<UUID>, spec: ReplaceSpec) returns (undo: ReplaceSpec)
    requires NoDup(order) && Elements(order) <= stored && spec.insertIDs == []
    requires var r := ReplaceOutcome(order, stored, spec); r.Ok? && r.value.order != []
    ensures var rep := ReplaceOutcome(order, stored, spec).value;
            && (undo.fromID.Some? != undo.toID.Some?) && undo.insertIDs == rep.replaced
            && ReplaceOutcome(rep.order, stored, undo) == Ok(Replacement(order, []))
  {
    var rep := ReplaceOutcome(order, stored, spec).value;
    var (lo, hi) := ReplaceBounds(order, spec).value;
    RemovalUndo(order, stored, spec);
    undo := if lo > 0 then ReplaceSpec(Some(order[lo - 1]), None, rep.replaced)
            else ReplaceSpec(None, Some(order[hi]), rep.replaced);
  }

  /** Over the same two bounds deleting and replacing by nothing leave the same order and name the same ids. */
  lemma DeleteIsEmptyReplace(order: seq<UUID>, stored: set<UUID>, from: UUID, to: UUID)
    requires NoDup(order)
    ensures var d := DeleteOutcome(order, DeleteSpec(Some(from), Some(to)));
            var r := ReplaceOutcome(order, stored, ReplaceSpec(Some(from), Some(to), []));
            && (d.Ok? <==> r.Ok?)
            && (d.Ok? ==> r.value == Replacement(d.value.remaining, d.value.deleted))
            && (d.Err? && order != [] ==> r == Err(d.error))
  {
    var spec := ReplaceSpec(Some(from), Some(to), []);
    if ReplaceBounds(order, spec).Ok? {
      var (lo, hi) := ReplaceBounds(order, spec).value;
      BoundsFit(order, spec);
      ReplaceWithFit(order, stored, spec, order[..lo], order[lo..hi], order[hi..]);
      NoDupParts(order[..lo], order[lo..hi], order[hi..]);
      assert order[..lo] + [] + order[hi..] == order[..lo] + order[hi..];
    }
  }

  // ---------------------------------------------------------------- deletion

  /** The order splits into what stays before, the range and what stays after; a missing bound means the end of the order. */
  ghost predicate DeleteFits(order: seq<UUID>, spec: DeleteSpec, pre: seq<UUID>, mid: seq<UUID>, post: seq<UUID>) {
    && order == pre + mid + post && mid != []
    && (if spec.fromID.Some? then mid[0] == spec.fromID.value else pre == [])
    && (if spec.toID.Some? then mid[|mid| - 1] == spec.toID.value else post == [])
    && (spec.fromID.Some? || spec.toID.Some?)
  }

  /** Where the range starts and ends once its bounds are known to be in the order. */
  function DeleteFrom(order: seq<UUID>, spec: DeleteSpec): nat {
    if spec.fromID.Some? && spec.fromID.value in IndexMap(order) then IndexMap(order)[spec.fromID.value] else 0
  }

  function DeleteTo(order: seq<UUID>, spec: DeleteSpec): int {
    if spec.toID.Some? && spec.toID.value in IndexMap(order) then IndexMap(order)[spec.toID.value] else |order| - 1
  }

  lemma DeleteIndexFacts(order: seq<UUID>, spec: DeleteSpec)
    ensures spec.fromID.Some? ==>
              var id := spec.fromID.value;
              (id in IndexMap(order) <==> id in order) && (id in order ==> order[DeleteFrom(order, spec)] == id)
    ensures spec.toID.Some? ==>
              var id := spec.toID.value;
              (id in IndexMap(order) <==> id in order) && (id in order ==> order[DeleteTo(order, spec)] == id)
  {
    if spec.fromID.Some? {
      IndexMapFacts(order, spec.fromID.value);
    }
    if spec.toID.Some? {
      IndexMapFacts(order, spec.toID.value);
    }
  }

  lemma DeleteRange(order: seq<UUID>, spec: DeleteSpec)
    requires DeleteOutcome(order, spec).Ok?
    ensures var from, to := DeleteFrom(order, spec), DeleteTo(order, spec);
            && from <= to < |order| && !Missing(order, spec.fromID) && !Missing(order, spec.toID)
            && (spec.fromID.Some? || spec.toID.Some?)
            && DeleteOutcome(order, spec) == Ok(Deletion(order[..from] + order[to + 1..], order[from..to + 1]))
  {
    DeleteIndexFacts(order, spec);
  }

  lemma RangeDeleteFits(order: seq<UUID>, spec: DeleteSpec, from: nat, to: nat)
    requires from <= to < |order| && (spec.fromID.Some? || spec.toID.Some?)
    requires if spec.fromID.Some? then order[from] == spec.fromID.value else from == 0
    requires if spec.toID.Some? then order[to] == spec.toID.value else to == |order| - 1
    ensures DeleteFits(order, spec, order[..from], order[from..to + 1], order[to + 1..])
  {
    Reassemble(order, from, to + 1);
  }

  lemma DeleteParts(order: seq<UUID>, spec: DeleteSpec)
    requires DeleteOutcome(order, spec).Ok?
    ensures var from, to := DeleteFrom(order, spec), DeleteTo(order, spec);
            && from <= to < |order|
            && DeleteFits(order, spec, order[..from], order[from..to + 1], order[to + 1..])
            && DeleteOutcome(order, spec) == Ok(Deletion(order[..from] + order[to + 1..], order[from..to + 1]))
  {
    DeleteRange(order, spec);
    DeleteIndexFacts(order, spec);
    RangeDeleteFits(order, spec, DeleteFrom(order, spec), DeleteTo(order, spec));
  }

  lemma DeleteFitBounds(order: seq<UUID>, spec: DeleteSpec, pre: seq<UUID>, mid: seq<UUID>, post: seq<UUID>)
    requires NoDup(order) && DeleteFits(order, spec, pre, mid, post)
    ensures DeleteFrom(order, spec) == |pre| && DeleteTo(order, spec) == |pre| + |mid| - 1
    ensures spec.fromID.Some? ==> spec.fromID.value in IndexMap(order)
    ensures spec.toID.Some? ==> spec.toID.value in IndexMap(order)
  {
    Parts(pre, mid, post);
    IndexOfElement(order, |pre|);
    IndexOfElement(order, |pre| + |mid| - 1);
  }

  /** If the order splits as the bounds say, the deletion takes the middle and leaves the rest. */
  lemma DeleteWithFit(order: seq<UUID>, spec: DeleteSpec, pre: seq<UUID>, mid: seq<UUID>, post: seq<UUID>)
    requires NoDup(order) && DeleteFits(order, spec, pre, mid, post)
    ensures DeleteOutcome(order, spec) == Ok(Deletion(pre + post, mid))
  {
    DeleteFitBounds(order, spec, pre, mid, post);
    Parts(pre, mid, post);
  }

  lemma DeleteError(order: seq<UUID>, spec: DeleteSpec)
    requires DeleteOutcome(order, spec).Err?
    ensures DeleteOutcome(order, spec).error ==
            if order != [] && (Missing(order, spec.fromID) || Missing(order, spec.toID)) then MessageNotFound
            else InvalidRangeSpec
  {
    DeleteIndexFacts(order, spec);
  }

  /** If it does not, the error is invalid-range, unless the order has items and misses a bound. */
  lemma DeleteWithoutFit(order: seq<UUID>, spec: DeleteSpec)
    requires forall pre, mid, post :: !DeleteFits(order, spec, pre, mid, post)
    ensures DeleteOutcome(order, spec) ==
            Err(if order != [] && (Missing(order, spec.fromID) || Missing(order, spec.toID)) then MessageNotFound
                else InvalidRangeSpec)
  {
    if DeleteOutcome(order, spec).Ok? {
      DeleteParts(order, spec);
    } else {
      DeleteError(order, spec);
    }
  }

  lemma WithoutMiddle(pre: seq<UUID>, mid: seq<UUID>, post: seq<UUID>)
    requires NoDup(pre + mid + post)
    ensures NoDup(pre + post) && Elements(pre + post) !! Elements(mid)
    ensures Elements(pre + mid + post) == Elements(pre + post) + Elements(mid)
  {
    NoDupParts(pre, mid, post);
    NoDupConcat(pre, post);
    ElementsConcat(pre, post);
  }

  /** A deletion takes the contiguous range its bounds name; what is left and what is taken share nothing. */
  lemma DeleteSplits(order: seq<UUID>, spec: DeleteSpec) returns (pre: seq<UUID>, post: seq<UUID>)
    requires NoDup(order) && DeleteOutcome(order, spec).Ok?
    ensures var d := DeleteOutcome(order, spec).value;
            && DeleteFits(order, spec, pre, d.deleted, post) && d.remaining == pre + post
            && NoDup(d.remaining)
            && Elements(d.remaining) !! Elements(d.deleted)
            && Elements(order) == Elements(d.remaining) + Elements(d.deleted)
  {
    DeleteParts(order, spec);
    pre, post := order[..DeleteFrom(order, spec)], order[DeleteTo(order, spec) + 1..];
    WithoutMiddle(pre, DeleteOutcome(order, spec).value.deleted, post);
  }
}
