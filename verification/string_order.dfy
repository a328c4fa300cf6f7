/** The ordering `Array.prototype.sort()` uses when no comparator is given
    (element-wise comparison of the strings), an insertion sort by it, and the
    facts the scope ordering of the import map relies on. */
module StringOrder {

  /** `a` is at most `b` in lexicographic order: a prefix comes first, otherwise
      the first differing character decides. */
  predicate Below(a: string, b: string) {
    |a| == 0 || (|b| > 0 && (a[0] < b[0] || (a[0] == b[0] && Below(a[1..], b[1..]))))
  }

  lemma {:induction false} BelowTotal(a: string, b: string)
    ensures Below(a, b) || Below(b, a)
  {
    if |a| > 0 && |b| > 0 && a[0] == b[0] {
      BelowTotal(a[1..], b[1..]);
    }
  }

  lemma {:induction false} BelowAntisymmetric(a: string, b: string)
    requires Below(a, b) && Below(b, a)
    ensures a == b
  {
    if |a| > 0 && |b| > 0 {
      BelowAntisymmetric(a[1..], b[1..]);
      assert a == [a[0]] + a[1..];
      assert b == [b[0]] + b[1..];
    }
  }

  lemma {:induction false} BelowTransitive(a: string, b: string, c: string)
    requires Below(a, b) && Below(b, c)
    ensures Below(a, c)
  {
    if |a| > 0 && a[0] == b[0] && b[0] == c[0] {
      BelowTransitive(a[1..], b[1..], c[1..]);
    }
  }

  /** Non-decreasing order. */
  predicate Ascending(s: seq<string>) {
    forall i, j :: 0 <= i < j < |s| ==> Below(s[i], s[j])
  }

  /** Non-increasing order. */
  predicate Descending(s: seq<string>) {
    forall i, j :: 0 <= i < j < |s| ==> Below(s[j], s[i])
  }

  /** Insert `x` into an ascending sequence, keeping it ascending. */
  function Insert(x: string, s: seq<string>): (r: seq<string>)
    requires Ascending(s)
    ensures Ascending(r)
    ensures multiset(r) == multiset(s) + multiset{x}
  {
    if |s| == 0 then [x]
    else if Below(x, s[0]) then
      assert forall j :: 0 <= j < |s| ==> Below(x, s[j]) by {
        forall j | 0 <= j < |s| ensures Below(x, s[j]) {
          if j > 0 { BelowTransitive(x, s[0], s[j]); }
        }
      }
      [x] + s
    else
      var rest := Insert(x, s[1..]);
      assert s == [s[0]] + s[1..];
      BelowTotal(x, s[0]);
      assert forall j :: 0 <= j < |rest| ==> Below(s[0], rest[j]) by {
        forall j | 0 <= j < |rest| ensures Below(s[0], rest[j]) {
          assert rest[j] in multiset(rest);
          assert rest[j] == x || rest[j] in s[1..];
        }
      }
      [s[0]] + rest
  }

  /** Insertion sort into ascending order. */
  function Sort(s: seq<string>): (r: seq<string>)
    ensures Ascending(r)
    ensures multiset(r) == multiset(s)
  {
    if |s| == 0 then []
    else
      assert s == [s[0]] + s[1..];
      Insert(s[0], Sort(s[1..]))
  }

  /** The elements in the opposite order. */
  function Reverse(s: seq<string>): (r: seq<string>)
    ensures |r| == |s|
    ensures forall i :: 0 <= i < |s| ==> r[i] == s[|s| - 1 - i]
  {
    if |s| == 0 then [] else Reverse(s[1..]) + [s[0]]
  }

  /** `keys.sort().reverse()`: the keys in descending order. */
  function SortDescending(keys: seq<string>): (r: seq<string>)
    ensures Descending(r)
    ensures multiset(r) == multiset(keys)
  {
    var up := Sort(keys);
    var r := Reverse(up);
    assert multiset(r) == multiset(up) by { ReverseMultiset(up); }
    r
  }

  lemma {:induction false} ReverseMultiset(s: seq<string>)
    ensures multiset(Reverse(s)) == multiset(s)
  {
    if |s| > 0 {
      ReverseMultiset(s[1..]);
      assert s == [s[0]] + s[1..];
    }
  }

  /** There is only one descending arrangement of a collection of strings, so the
      scope order does not depend on how the sort is carried out. */
  lemma {:induction false} DescendingUnique(a: seq<string>, b: seq<string>)
    requires Descending(a) && Descending(b)
    requires multiset(a) == multiset(b)
    ensures a == b
  {
    if |a| == 0 {
      assert |multiset(b)| == 0;
    } else {
      assert |b| > 0 by { assert |multiset(b)| == |multiset(a)| > 0; }
      GreatestFirst(a, b);
      TailMultiset(a, b);
      assert Descending(a[1..]);
      assert Descending(b[1..]);
      DescendingUnique(a[1..], b[1..]);
      assert a == [a[0]] + a[1..];
      assert b == [b[0]] + b[1..];
    }
  }

  /** Two descending arrangements of the same strings start with the same one. */
  lemma GreatestFirst(a: seq<string>, b: seq<string>)
    requires Descending(a) && Descending(b)
    requires multiset(a) == multiset(b)
    requires |a| > 0 && |b| > 0
    ensures a[0] == b[0]
  {
    assert a[0] in multiset(b);
    var k :| 0 <= k < |b| && b[k] == a[0];
    assert b[0] in multiset(a);
    var m :| 0 <= m < |a| && a[m] == b[0];
    if m > 0 && k > 0 {
      assert Below(b[0], a[0]);
      assert Below(a[0], b[0]);
      BelowAntisymmetric(a[0], b[0]);
    }
  }

  lemma TailMultiset(a: seq<string>, b: seq<string>)
    requires multiset(a) == multiset(b)
    requires |a| > 0 && |b| > 0 && a[0] == b[0]
    ensures multiset(a[1..]) == multiset(b[1..])
  {
    assert a == [a[0]] + a[1..];
    assert b == [b[0]] + b[1..];
    assert multiset(a[1..]) == multiset(a) - multiset{a[0]};
    assert multiset(b[1..]) == multiset(b) - multiset{b[0]};
  }

  /** Sequences with the same multiset of elements have the same elements. */
  lemma SameElements(a: seq<string>, b: seq<string>)
    requires multiset(a) == multiset(b)
    ensures forall i :: 0 <= i < |a| ==> a[i] in b
    ensures forall i :: 0 <= i < |b| ==> b[i] in a
  {
    forall i | 0 <= i < |a| ensures a[i] in b {
      assert a[i] in multiset(a);
    }
    forall i | 0 <= i < |b| ensures b[i] in a {
      assert b[i] in multiset(b);
    }
  }
}
