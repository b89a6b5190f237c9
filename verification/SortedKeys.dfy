/** The order sort.Strings puts distinct strings into, and why there is only one. */
module SortedKeys {
  import opened Base

  predicate Less(a: string, b: string) {
    b != "" && (a == "" || a[0] < b[0] || (a[0] == b[0] && Less(a[1..], b[1..])))
  }

  lemma {:induction false} LessTotal(a: string, b: string)
    ensures a == b || Less(a, b) || Less(b, a)
    ensures !(Less(a, b) && (a == b || Less(b, a)))
  {
    if a != "" && b != "" && a[0] == b[0] {
      LessTotal(a[1..], b[1..]);
      assert a == [a[0]] + a[1..] && b == [b[0]] + b[1..];
    }
  }

  lemma {:induction false} LessTransitive(a: string, b: string, c: string)
    requires Less(a, b) && Less(b, c)
    ensures Less(a, c)
  {
    if a != "" && a[0] == b[0] == c[0] {
      LessTransitive(a[1..], b[1..], c[1..]);
    }
  }

  function Elements(s: seq<string>): set<string> {
    set x | x in s
  }

  ghost predicate Ascending(s: seq<string>) {
    forall i, j :: 0 <= i < j < |s| ==> Less(s[i], s[j])
  }

  /** Two ascending lists of the same strings are the same list. */
  lemma {:induction false} AscendingUnique(s: seq<string>, t: seq<string>)
    requires Ascending(s) && Ascending(t) && Elements(s) == Elements(t)
    ensures s == t
  {
    if t != [] {
      assert t[0] in Elements(t);
    }
    if s == [] {
      assert Elements(s) == {};
    } else {
      assert s[0] in Elements(t) && t != [] && t[0] in Elements(s);
      LessTotal(s[0], t[0]);
      assert s[0] == t[0];
      forall x ensures x in Elements(s[1..]) <==> x in Elements(t[1..]) {
        LessTotal(s[0], s[0]);
        if x in s[1..] || x in t[1..] {
          assert x in Elements(s) && x in Elements(t) && x != s[0];
        }
      }
      AscendingUnique(s[1..], t[1..]);
      assert s == [s[0]] + s[1..] && t == [t[0]] + t[1..];
    }
  }

  function Place(k: string, s: seq<string>): (r: seq<string>)
    requires Ascending(s) && k !in s
    ensures Ascending(r) && Elements(r) == Elements(s) + {k}
  {
    if s == [] then [k]
    else if Less(k, s[0]) then
      assert forall j | 0 < j < |s| :: Less(k, s[j]) by {
        forall j | 0 < j < |s| ensures Less(k, s[j]) { LessTransitive(k, s[0], s[j]); }
      }
      [k] + s
    else
      LessTotal(s[0], k);
      assert s == [s[0]] + s[1..];
      var t := Place(k, s[1..]);
      assert forall j | 0 <= j < |t| :: t[j] in Elements(t);
      [s[0]] + t
  }

  /** The result of sort.Strings on distinct strings. */
  function Sort(keys: seq<string>): (sorted: seq<string>)
    requires NoDup(keys)
    ensures Ascending(sorted) && Elements(sorted) == Elements(keys)
  {
    if keys == [] then []
    else
      assert keys == [keys[0]] + keys[1..];
      assert keys[0] !in Elements(keys[1..]) && keys[0] !in Elements(Sort(keys[1..]));
      Place(keys[0], Sort(keys[1..]))
  }

  /** The ascending list of a set; by AscendingUnique there is no other. */
  ghost function OfSet(s: set<string>): (list: seq<string>)
    ensures Ascending(list) && Elements(list) == s
  {
    if s == {} then []
    else
      var k :| k in s;
      var rest := OfSet(s - {k});
      assert k !in Elements(rest);
      Place(k, rest)
  }

  /** Visits the keys in an unspecified order, as ranging over a Go map does, then sorts them. */
  method OfMap(m: map<string, string>) returns (keys: seq<string>)
    ensures keys == OfSet(m.Keys)
  {
    var pending := m.Keys;
    keys := [];
    while pending != {}
      invariant NoDup(keys)
      invariant Elements(keys) !! pending
      invariant Elements(keys) + pending == m.Keys
    {
      var k :| k in pending;
      assert k !in Elements(keys);
      pending := pending - {k};
      keys := keys + [k];
    }
    keys := Sort(keys);
    AscendingUnique(keys, OfSet(m.Keys));
  }
}
