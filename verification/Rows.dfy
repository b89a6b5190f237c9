/** SELECT ... ORDER BY position: the rows of a table keyed by position, in ascending order. */
module Rows {
  import opened Base

  datatype Row<+V> = Row(position: nat, value: V)

  /** The rows with lo <= position < hi, ascending. */
  function Between<V>(m: map<nat, V>, lo: nat, hi: nat): seq<Row<V>>
    decreases hi
  {
    if hi <= lo then []
    else Between(m, lo, hi - 1) + if hi - 1 in m then [Row(hi - 1, m[hi - 1])] else []
  }

  function Values<V>(rows: seq<Row<V>>): seq<V> {
    seq(|rows|, i requires 0 <= i < |rows| => rows[i].value)
  }

  /** The values of all rows below `hi`, ascending by position. */
  function Ordered<V>(m: map<nat, V>, hi: nat): seq<V> {
    Values(Between(m, 0, hi))
  }

  ghost predicate Ascending<V>(rows: seq<Row<V>>) {
    forall i, j :: 0 <= i < j < |rows| ==> rows[i].position < rows[j].position
  }

  /** What ORDER BY promises: every row of the range once, ascending. */
  ghost predicate IsSelection<V>(rows: seq<Row<V>>, m: map<nat, V>, lo: nat, hi: nat) {
    && Ascending(rows)
    && (forall i :: 0 <= i < |rows| ==> lo <= rows[i].position < hi && rows[i].position in m && rows[i].value == m[rows[i].position])
    && (forall p :: p in m && lo <= p < hi ==> Row(p, m[p]) in rows)
  }

  lemma SelectionSnoc<V>(rows: seq<Row<V>>, m: map<nat, V>, lo: nat, hi: nat)
    requires lo <= hi && hi in m && IsSelection(rows, m, lo, hi)
    ensures IsSelection(rows + [Row(hi, m[hi])], m, lo, hi + 1)
  {
    var all := rows + [Row(hi, m[hi])];
    forall p | p in m && lo <= p < hi + 1 ensures Row(p, m[p]) in all {
      if p == hi {
        assert all[|rows|] == Row(p, m[p]);
      } else {
        assert Row(p, m[p]) in rows;
      }
    }
  }

  lemma {:induction false} BetweenIsSelection<V>(m: map<nat, V>, lo: nat, hi: nat)
    ensures IsSelection(Between(m, lo, hi), m, lo, hi)
    decreases hi
  {
    if lo < hi {
      BetweenIsSelection(m, lo, hi - 1);
      if hi - 1 in m {
        SelectionSnoc(Between(m, lo, hi - 1), m, lo, hi - 1);
      }
    }
  }

  lemma SelectionInit<V>(rows: seq<Row<V>>, m: map<nat, V>, lo: nat, hi: nat)
    requires lo <= hi && rows != [] && IsSelection(rows, m, lo, hi + 1) && rows[|rows| - 1].position == hi
    ensures IsSelection(rows[..|rows| - 1], m, lo, hi)
  {
    var before := rows[..|rows| - 1];
    forall p | p in m && lo <= p < hi ensures Row(p, m[p]) in before {
      var i :| 0 <= i < |rows| && rows[i] == Row(p, m[p]);
      assert before[i] == rows[i];
    }
  }

  lemma SelectionLast<V>(rows: seq<Row<V>>, m: map<nat, V>, lo: nat, hi: nat)
    requires lo <= hi && IsSelection(rows, m, lo, hi + 1)
    ensures hi in m ==> rows != [] && rows[|rows| - 1] == Row(hi, m[hi])
    ensures hi !in m ==> IsSelection(rows, m, lo, hi)
  {
    if hi in m {
      var i :| 0 <= i < |rows| && rows[i] == Row(hi, m[hi]);
    }
  }

  /** The rows of a range but its last position, and that row if there is one. */
  lemma SelectionSplit<V>(rows: seq<Row<V>>, m: map<nat, V>, lo: nat, hi: nat) returns (init: seq<Row<V>>)
    requires lo <= hi && IsSelection(rows, m, lo, hi + 1)
    ensures IsSelection(init, m, lo, hi) && rows == init + if hi in m then [Row(hi, m[hi])] else []
  {
    SelectionLast(rows, m, lo, hi);
    if hi in m {
      SelectionInit(rows, m, lo, hi);
      init := rows[..|rows| - 1];
    } else {
      init := rows;
    }
  }

  lemma RowInRange<V>(rows: seq<Row<V>>, m: map<nat, V>, lo: nat, hi: nat, i: nat)
    requires IsSelection(rows, m, lo, hi) && i < |rows|
    ensures lo <= rows[i].position < hi
  {
  }

  lemma EmptySelection<V>(rows: seq<Row<V>>, m: map<nat, V>, lo: nat, hi: nat)
    requires hi <= lo && IsSelection(rows, m, lo, hi)
    ensures rows == []
  {
    if rows != [] {
      RowInRange(rows, m, lo, hi, 0);
    }
  }

  /** No other list is a selection. */
  lemma {:induction false} SelectionUnique<V>(rows: seq<Row<V>>, m: map<nat, V>, lo: nat, hi: nat)
    requires IsSelection(rows, m, lo, hi)
    ensures rows == Between(m, lo, hi)
    decreases hi
  {
    if hi <= lo {
      EmptySelection(rows, m, lo, hi);
    } else {
      var init := SelectionSplit(rows, m, lo, hi - 1);
      SelectionUnique(init, m, lo, hi - 1);
    }
  }

  lemma {:induction false} Frame<V>(m: map<nat, V>, n: map<nat, V>, lo: nat, hi: nat)
    requires forall p :: lo <= p < hi ==> (p in m <==> p in n) && (p in m ==> m[p] == n[p])
    ensures Between(m, lo, hi) == Between(n, lo, hi)
    decreases hi
  {
    if lo < hi {
      Frame(m, n, lo, hi - 1);
    }
  }

  lemma {:induction false} Split<V>(m: map<nat, V>, lo: nat, mid: nat, hi: nat)
    requires lo <= mid <= hi
    ensures Between(m, lo, hi) == Between(m, lo, mid) + Between(m, mid, hi)
    decreases hi
  {
    if mid < hi {
      Split(m, lo, mid, hi - 1);
    }
  }

  lemma {:induction false} NoRows<V>(m: map<nat, V>, lo: nat, hi: nat)
    requires forall p :: p in m ==> !(lo <= p < hi)
    ensures Between(m, lo, hi) == []
    decreases hi
  {
    if lo < hi {
      NoRows(m, lo, hi - 1);
    }
  }

  /** Raising the upper bound over positions that hold no row changes nothing. */
  lemma Grow<V>(m: map<nat, V>, hi: nat, hi': nat)
    requires hi <= hi' && forall p :: p in m ==> p < hi
    ensures Between(m, 0, hi') == Between(m, 0, hi) && Ordered(m, hi') == Ordered(m, hi)
  {
    Split(m, 0, hi, hi');
    NoRows(m, hi, hi');
  }

  lemma ValuesAppend<V>(a: seq<Row<V>>, b: seq<Row<V>>)
    ensures Values(a + b) == Values(a) + Values(b)
  {
  }

  /** A row inserted at the next position goes last. */
  lemma Push<V>(m: map<nat, V>, hi: nat, v: V)
    requires forall p :: p in m ==> p < hi
    ensures Ordered(m[hi := v], hi + 1) == Ordered(m, hi) + [v]
  {
    Frame(m[hi := v], m, 0, hi);
    ValuesAppend(Between(m, 0, hi), [Row(hi, v)]);
  }

  /** Membership in the ordered list is membership in the table. */
  lemma OrderedMembers<V>(m: map<nat, V>, hi: nat, v: V)
    ensures v in Ordered(m, hi) <==> exists p :: p in m && p < hi && m[p] == v
  {
    var rows := Between(m, 0, hi);
    BetweenIsSelection(m, 0, hi);
    if v in Ordered(m, hi) {
      var i :| 0 <= i < |rows| && rows[i].value == v;
      assert rows[i].position in m;
    }
    if p :| p in m && p < hi && m[p] == v {
      var i :| 0 <= i < |rows| && rows[i] == Row(p, m[p]);
      assert Ordered(m, hi)[i] == v;
    }
  }

  ghost predicate Precedes<V>(s: seq<V>, v: V, w: V) {
    exists i, j :: 0 <= i < j < |s| && s[i] == v && s[j] == w
  }

  /** Rows are listed by position. */
  lemma PositionsOrder<V>(m: map<nat, V>, hi: nat, p: nat, q: nat)
    requires p in m && q in m && p < q < hi
    ensures Precedes(Ordered(m, hi), m[p], m[q])
  {
    var rows := Between(m, 0, hi);
    BetweenIsSelection(m, 0, hi);
    var i :| 0 <= i < |rows| && rows[i] == Row(p, m[p]);
    var j :| 0 <= j < |rows| && rows[j] == Row(q, m[q]);
    assert i < j;
    assert Ordered(m, hi)[i] == m[p] && Ordered(m, hi)[j] == m[q];
  }

  /** Distinct values in the table make a list without repeats. */
  lemma OrderedNoDup<V>(m: map<nat, V>, hi: nat)
    requires forall p, q :: p in m && q in m && m[p] == m[q] ==> p == q
    ensures NoDup(Ordered(m, hi))
  {
    BetweenIsSelection(m, 0, hi);
    var rows := Between(m, 0, hi);
    forall i, j | 0 <= i < j < |rows| ensures rows[i].value != rows[j].value {
      assert rows[i].position in m && rows[j].position in m;
    }
  }

  function KeysIn<V>(m: map<nat, V>, lo: nat, hi: nat): set<nat> {
    set p | p in m && lo <= p < hi
  }

  function KeysBelow<V>(m: map<nat, V>, hi: nat): set<nat> {
    set p | p in m && p < hi
  }

  /** A range lists as many rows as it has. */
  lemma {:induction false} BetweenLength<V>(m: map<nat, V>, lo: nat, hi: nat)
    ensures |Between(m, lo, hi)| == |KeysIn(m, lo, hi)|
    decreases hi
  {
    if hi <= lo {
      assert KeysIn(m, lo, hi) == {};
    } else {
      BetweenLength(m, lo, hi - 1);
      if hi - 1 in m {
        assert KeysIn(m, lo, hi) == KeysIn(m, lo, hi - 1) + {hi - 1};
      } else {
        assert KeysIn(m, lo, hi) == KeysIn(m, lo, hi - 1);
      }
    }
  }

  lemma LengthBelow<V>(m: map<nat, V>, hi: nat)
    ensures |Ordered(m, hi)| == |KeysBelow(m, hi)|
  {
    BetweenLength(m, 0, hi);
    assert KeysIn(m, 0, hi) == KeysBelow(m, hi);
  }

  /** COUNT(*) is the length of the ordered list. */
  lemma OrderedLength<V>(m: map<nat, V>, hi: nat)
    requires forall p :: p in m ==> p < hi
    ensures |Ordered(m, hi)| == |m|
  {
    LengthBelow(m, hi);
    assert KeysBelow(m, hi) == m.Keys;
  }

  // ---------------------------------------------------------------- interleaving two tables

  function Only<V(==)>(s: seq<V>, keep: set<V>): seq<V> {
    if s == [] then [] else Only(s[..|s| - 1], keep) + if s[|s| - 1] in keep then [s[|s| - 1]] else []
  }

  function Except<V(==)>(s: seq<V>, drop: set<V>): seq<V> {
    if s == [] then [] else Except(s[..|s| - 1], drop) + if s[|s| - 1] in drop then [] else [s[|s| - 1]]
  }

  lemma OnlySnoc<V>(s: seq<V>, v: V, keep: set<V>)
    ensures Only(s + [v], keep) == Only(s, keep) + if v in keep then [v] else []
    ensures Except(s + [v], keep) == Except(s, keep) + if v in keep then [] else [v]
  {
    assert (s + [v])[..|s|] == s;
  }

  /** The union of two tables lists the rows of each in its own order. */
  lemma {:induction false} Weave<V>(m: map<nat, V>, n: map<nat, V>, hi: nat, added: set<V>)
    requires m.Keys !! n.Keys
    requires forall p :: p in m ==> m[p] !in added
    requires forall p :: p in n ==> n[p] in added
    ensures Only(Ordered(m + n, hi), added) == Ordered(n, hi)
    ensures Except(Ordered(m + n, hi), added) == Ordered(m, hi)
    ensures |Ordered(m + n, hi)| == |Ordered(m, hi)| + |Ordered(n, hi)|
    decreases hi
  {
    if hi == 0 {
      assert Ordered(m + n, 0) == [] && Ordered(m, 0) == [] && Ordered(n, 0) == [];
    } else {
      Weave(m, n, hi - 1, added);
      Snoc(m, hi);
      Snoc(n, hi);
      Snoc(m + n, hi);
      var s := Ordered(m + n, hi - 1);
      if hi - 1 in m {
        OnlySnoc(s, m[hi - 1], added);
        assert Ordered(n, hi) == Ordered(n, hi - 1);
      } else if hi - 1 in n {
        OnlySnoc(s, n[hi - 1], added);
        assert Ordered(m, hi) == Ordered(m, hi - 1);
      } else {
        assert Ordered(m, hi) == Ordered(m, hi - 1) && Ordered(n, hi) == Ordered(n, hi - 1);
        assert Ordered(m + n, hi) == s;
      }
    }
  }

  lemma Snoc<V>(m: map<nat, V>, hi: nat)
    requires hi > 0
    ensures Ordered(m, hi) == Ordered(m, hi - 1) + if hi - 1 in m then [m[hi - 1]] else []
  {
    if hi - 1 in m {
      ValuesAppend(Between(m, 0, hi - 1), [Row(hi - 1, m[hi - 1])]);
    }
  }

  lemma ConcatRows<V>(m: map<nat, V>, n: map<nat, V>, base: nat, hi: nat)
    requires base <= hi
    requires forall p :: p in m ==> p < base
    requires forall p :: p in n ==> base <= p
    ensures Between(m + n, 0, hi) == Between(m, 0, base) + Between(n, base, hi)
  {
    Split(m + n, 0, base, hi);
    Frame(m + n, m, 0, base);
    Frame(m + n, n, base, hi);
  }

  /** When every row of one table lies below every row of the other, the union is the concatenation. */
  lemma Concat<V>(m: map<nat, V>, n: map<nat, V>, base: nat, hi: nat)
    requires base <= hi
    requires forall p :: p in m ==> p < base
    requires forall p :: p in n ==> base <= p
    ensures Ordered(m + n, hi) == Ordered(m, hi) + Ordered(n, hi)
  {
    ConcatRows(m, n, base, hi);
    Grow(m, base, hi);
    Split(n, 0, base, hi);
    NoRows(n, 0, base);
    ValuesAppend(Between(m, 0, base), Between(n, base, hi));
  }
}
