/** Go slices: windows on a shared backing array, with the built-in append. */
module GoSlice {

  /** `off` is where the window starts; the capacity runs to the end of the array. */
  datatype Slice<T> = Slice(buf: array<T>, off: nat, len: nat) {
    ghost predicate Valid() {
      off + len <= buf.Length
    }

    ghost function View(): seq<T>
      requires Valid()
      reads buf
    {
      buf[off..off + len]
    }

    /** The slice expression s[lo:hi]. */
    function Sub(lo: nat, hi: nat): (s: Slice<T>)
      requires Valid() && lo <= hi <= len
      ensures s.Valid()
    {
      Slice(buf, off + lo, hi - lo)
    }

    lemma SubView(lo: nat, hi: nat)
      requires Valid() && lo <= hi <= len
      ensures Sub(lo, hi).View() == View()[lo..hi]
    {
    }
  }

  /** make followed by copy. */
  method Make<T(0)>(elements: seq<T>) returns (s: Slice<T>)
    ensures fresh(s.buf) && s.Valid() && s.off == 0 && s.View() == elements
  {
    var n := |elements|;
    var buf := new T[n];
    forall i | 0 <= i < n {
      buf[i] := elements[i];
    }
    s := Slice(buf, 0, n);
  }

  /** Two stretches side by side in one array make up their concatenation. */
  lemma Joined<T>(buf: array<T>, off: nat, n: nat, m: nat, head: seq<T>, tail: seq<T>)
    requires off + n + m <= buf.Length && |head| == n && |tail| == m
    requires forall i :: 0 <= i < n ==> buf[off + i] == head[i]
    requires forall i :: 0 <= i < m ==> buf[off + n + i] == tail[i]
    ensures buf[off..off + n] == head && buf[off..off + (n + m)] == head + tail
  {
  }

  /**
   * append(s, t...): writes behind `s` in its own array when the capacity allows, moving all elements
   * at once as memmove does, so `t` may overlap the destination; otherwise moves to a larger array.
   * Nothing of the old array changes except the elements right behind `s`.
   */
  method Append<T(0)>(s: Slice<T>, t: Slice<T>) returns (r: Slice<T>)
    requires s.Valid() && t.Valid()
    modifies s.buf
    ensures r.Valid() && r.View() == old(s.View()) + old(t.View())
    ensures r.buf == s.buf || fresh(r.buf)
    ensures r.buf == s.buf ==> r.off == s.off
    ensures s.View() == old(s.View())
    ensures forall i :: 0 <= i < s.buf.Length && !(s.off + s.len <= i < s.off + s.len + t.len) ==> s.buf[i] == old(s.buf[i])
  {
    var total, end := s.len + t.len, s.off + s.len;
    ghost var head, tail := s.View(), t.View();
    if end + t.len <= s.buf.Length {
      forall i | 0 <= i < t.len {
        s.buf[end + i] := t.buf[t.off + i];
      }
      r := Slice(s.buf, s.off, total);
      Joined(s.buf, s.off, s.len, t.len, head, tail);
    } else {
      var spare: nat :| true;
      var grown := new T[total + spare];
      forall i | 0 <= i < s.len {
        grown[i] := s.buf[s.off + i];
      }
      forall i | 0 <= i < t.len {
        grown[s.len + i] := t.buf[t.off + i];
      }
      r := Slice(grown, 0, total);
      Joined(grown, 0, s.len, t.len, head, tail);
    }
  }
}
