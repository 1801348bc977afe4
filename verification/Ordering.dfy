/**
  The order of byte strings, and the sorted listing of a set of them
  (src/internal/verify/red.go, sortedKeys and decodeIDSet).
 */
module Ordering {

  /** The order of byte strings. */
  predicate Less(a: string, b: string)
    decreases |a|
  {
    b != [] && (a == [] || a[0] < b[0] || (a[0] == b[0] && Less(a[1..], b[1..])))
  }

  lemma {:induction false} LessIsStrict(a: string)
    ensures !Less(a, a)
    decreases |a|
  {
    if a != [] {
      LessIsStrict(a[1..]);
    }
  }

  lemma {:induction false} LessIsTransitive(a: string, b: string, c: string)
    requires Less(a, b) && Less(b, c)
    ensures Less(a, c)
    decreases |a|
  {
    if a != [] && a[0] == b[0] && b[0] == c[0] {
      LessIsTransitive(a[1..], b[1..], c[1..]);
    }
  }

  predicate Ascending(ids: seq<string>) {
    forall i :: 0 < i < |ids| ==> Less(ids[i - 1], ids[i])
  }

  function Elements(ids: seq<string>): set<string> {
    set i | 0 <= i < |ids| :: ids[i]
  }

  lemma {:induction false} AscendingOrder(ids: seq<string>, i: nat, j: nat)
    requires Ascending(ids) && i < j < |ids|
    ensures Less(ids[i], ids[j])
    decreases j - i
  {
    if i + 1 < j {
      AscendingOrder(ids, i, j - 1);
      LessIsTransitive(ids[i], ids[j - 1], ids[j]);
    }
  }

  lemma {:induction false} DistinctCount(ids: seq<string>)
    requires forall i, j :: 0 <= i < j < |ids| ==> ids[i] != ids[j]
    ensures |Elements(ids)| == |ids|
    decreases |ids|
  {
    if ids != [] {
      var front, last := ids[..|ids| - 1], ids[|ids| - 1];
      DistinctCount(front);
      assert Elements(ids) == Elements(front) + {last} by {
        assert forall i :: 0 <= i < |front| ==> front[i] == ids[i];
      }
      assert last !in Elements(front);
    }
  }

  lemma ElementsAppend(ids: seq<string>, id: string)
    ensures Elements(ids + [id]) == Elements(ids) + {id}
  {
    var all := ids + [id];
    assert all[|ids|] == id;
    assert forall i :: 0 <= i < |ids| ==> all[i] == ids[i];
  }

  // ------------------------------------------------------------- sorted listings

  lemma {:induction false} LessIsTotal(a: string, b: string)
    ensures a == b || Less(a, b) || Less(b, a)
    decreases |a|
  {
    if a != [] && b != [] && a[0] == b[0] {
      LessIsTotal(a[1..], b[1..]);
      assert a == [a[0]] + a[1..] && b == [b[0]] + b[1..];
    }
  }

  /** An ascending listing is determined by its elements. */
  lemma {:induction false} AscendingIsUnique(a: seq<string>, b: seq<string>)
    requires Ascending(a) && Ascending(b) && Elements(a) == Elements(b)
    ensures a == b
    decreases |a|
  {
    NoElements(a);
    NoElements(b);
    if a != [] {
      assert a[0] in Elements(a) && b[0] in Elements(b);
      FirstIsLeast(a, b[0]);
      FirstIsLeast(b, a[0]);
      if Less(a[0], b[0]) && Less(b[0], a[0]) {
        LessIsTransitive(a[0], b[0], a[0]);
        LessIsStrict(a[0]);
      }
      assert a[0] == b[0];
      RestElements(a);
      RestElements(b);
      AscendingIsUnique(a[1..], b[1..]);
      assert a == [a[0]] + a[1..] && b == [b[0]] + b[1..];
    }
  }

  lemma NoElements(ids: seq<string>)
    ensures Elements(ids) == {} <==> ids == []
  {
    if ids != [] {
      assert ids[0] in Elements(ids);
    }
  }

  lemma FirstIsLeast(ids: seq<string>, x: string)
    requires Ascending(ids) && x in Elements(ids)
    ensures x == ids[0] || Less(ids[0], x)
  {
    var i :| 0 <= i < |ids| && ids[i] == x;
    if i > 0 {
      AscendingOrder(ids, 0, i);
    }
  }

  lemma RestElements(ids: seq<string>)
    requires ids != [] && Ascending(ids)
    ensures Elements(ids[1..]) == Elements(ids) - {ids[0]} && Ascending(ids[1..])
  {
    var rest := ids[1..];
    assert forall i :: 0 <= i < |rest| ==> rest[i] == ids[i + 1];
    forall i | 0 < i < |ids| ensures ids[i] != ids[0] && ids[i] in Elements(rest) {
      AscendingOrder(ids, 0, i);
      LessIsStrict(ids[0]);
      assert rest[i - 1] == ids[i];
    }
  }

  /** An id put between a smaller and a larger neighbour. */
  lemma InsertedAt(ids: seq<string>, id: string, i: nat)
    requires Ascending(ids) && i <= |ids|
    requires (i < |ids| ==> Less(id, ids[i])) && (i > 0 ==> Less(ids[i - 1], id))
    ensures var r := ids[..i] + [id] + ids[i..]; Ascending(r) && Elements(r) == Elements(ids) + {id}
  {
    hide Less;
    var r := ids[..i] + [id] + ids[i..];
    assert forall k :: 0 <= k < |r| ==> r[k] == if k < i then ids[k] else if k == i then id else ids[k - 1];
    InsertedElements(ids, id, i);
  }

  lemma InsertedElements(ids: seq<string>, id: string, i: nat)
    requires i <= |ids|
    ensures Elements(ids[..i] + [id] + ids[i..]) == Elements(ids) + {id}
  {
    var r := ids[..i] + [id] + ids[i..];
    assert forall k :: 0 <= k < |r| ==> r[k] == if k < i then ids[k] else if k == i then id else ids[k - 1];
    assert r[i] == id;
    forall x | x in Elements(ids) ensures x in Elements(r) {
      var k :| 0 <= k < |ids| && ids[k] == x;
      assert if k < i then r[k] == x else r[k + 1] == x;
    }
    forall k | 0 <= k < |r| && k != i ensures r[k] in Elements(ids) {
      assert if k < i then ids[k] == r[k] else ids[k - 1] == r[k];
    }
  }

  /** Put an id at its place in an ascending listing. */
  method Insert(ids: seq<string>, id: string) returns (r: seq<string>)
    requires Ascending(ids) && id !in Elements(ids)
    ensures Ascending(r) && Elements(r) == Elements(ids) + {id}
  {
    var i := |ids|;
    while i > 0 && Less(id, ids[i - 1])
      invariant 0 <= i <= |ids| && (i < |ids| ==> Less(id, ids[i]))
    {
      i := i - 1;
    }
    if i > 0 {
      LessIsTotal(id, ids[i - 1]);
      assert ids[i - 1] in Elements(ids);
    }
    InsertedAt(ids, id, i);
    r := ids[..i] + [id] + ids[i..];
  }

  predicate IsListing(ids: seq<string>, s: set<string>) {
    Ascending(ids) && Elements(ids) == s
  }

  lemma {:induction false} ListingExists(s: set<string>)
    ensures exists ids :: IsListing(ids, s)
    decreases |s|
  {
    hide Less;
    if s == {} {
      assert IsListing([], s);
    } else {
      var x :| x in s;
      ListingExists(s - {x});
      var ids :| IsListing(ids, s - {x});
      var i := PlaceOf(ids, x);
      InsertedAt(ids, x, i);
      assert Elements(ids) + {x} == s;
      assert IsListing(ids[..i] + [x] + ids[i..], s);
    }
  }

  lemma {:induction false} PlaceOf(ids: seq<string>, x: string) returns (i: nat)
    requires Ascending(ids) && x !in Elements(ids)
    ensures i <= |ids| && (i < |ids| ==> Less(x, ids[i])) && (i > 0 ==> Less(ids[i - 1], x))
  {
    i := 0;
    while i < |ids| && !Less(x, ids[i])
      invariant i <= |ids| && (i > 0 ==> Less(ids[i - 1], x))
    {
      LessIsTotal(x, ids[i]);
      assert ids[i] in Elements(ids);
      i := i + 1;
    }
  }

  /** The ids of a set in ascending order. */
  ghost function Sorted(s: set<string>): (ids: seq<string>)
    ensures Ascending(ids) && Elements(ids) == s
  {
    ListingExists(s);
    var ids :| IsListing(ids, s);
    ids
  }

  method SortedKeys(s: set<string>) returns (ids: seq<string>)
    ensures ids == Sorted(s)
    ensures Ascending(ids) && Elements(ids) == s
  {
    ids := [];
    var left := s;
    while left != {}
      invariant left <= s && Ascending(ids) && Elements(ids) == s - left
      decreases |left|
    {
      var id :| id in left;
      left := left - {id};
      ids := Insert(ids, id);
    }
    AscendingIsUnique(ids, Sorted(s));
  }

  lemma SortedIsDistinct(s: set<string>)
    ensures forall i, j :: 0 <= i < j < |Sorted(s)| ==> Sorted(s)[i] != Sorted(s)[j]
    ensures forall id :: id in Sorted(s) <==> id in s
  {
    var ids := Sorted(s);
    forall i, j | 0 <= i < j < |ids| ensures ids[i] != ids[j] {
      AscendingOrder(ids, i, j);
      LessIsStrict(ids[i]);
    }
    forall id ensures id in ids <==> id in s {
      assert id in ids <==> id in Elements(ids);
    }
  }
}
