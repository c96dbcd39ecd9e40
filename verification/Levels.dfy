/**
 One side of the level-2 book as a value: a sequence of levels ordered by key, changed by
 set/delete rows, and the price-to-quantity map it stands for.

 A side is stored under keys that ascend from the best level: an ask is keyed by its price,
 a bid by minus its price.
 */
module Levels {
  datatype Level = Level(key: int, qty: int)

  /* A set row (qty > 0) or a delete row (qty <= 0), already under its key. */
  datatype Row = Row(key: int, qty: int)

  type Depth = map<int, int>

  ghost predicate Ordered(s: seq<Level>) {
    forall i, j :: 0 <= i < j < |s| ==> s[i].key <= s[j].key
  }

  ghost predicate StrictlyOrdered(s: seq<Level>) {
    forall i, j :: 0 <= i < j < |s| ==> s[i].key < s[j].key
  }

  ghost predicate KeysDiffer(s: seq<Level>) {
    forall i, j :: 0 <= i < j < |s| ==> s[i].key != s[j].key
  }

  ghost predicate Positive(s: seq<Level>) {
    forall i :: 0 <= i < |s| ==> s[i].qty > 0
  }

  /** `searchsorted(side="left")`: the first position whose key is not below `key`. */
  function LowerBound(s: seq<Level>, key: int): (i: nat)
    ensures i <= |s|
    ensures forall j :: 0 <= j < i ==> s[j].key < key
    ensures i < |s| ==> s[i].key >= key
  {
    if s == [] || s[0].key >= key then 0
    else
      var rest := LowerBound(s[1..], key);
      assert forall j :: 0 < j < 1 + rest ==> s[j] == s[1..][j - 1];
      1 + rest
  }

  predicate Found(s: seq<Level>, key: int) {
    var i := LowerBound(s, key);
    i < |s| && s[i].key == key
  }

  /** The effect of one row on a side of capacity `cap`: delete, overwrite, insert, or refuse when full. */
  function ApplyRow(s: seq<Level>, row: Row, cap: nat): seq<Level> {
    var i := LowerBound(s, row.key);
    if row.qty <= 0 then
      if Found(s, row.key) then s[..i] + s[i + 1..] else s
    else if Found(s, row.key) then s[i := Level(s[i].key, row.qty)]
    else if |s| >= cap then s
    else s[..i] + [Level(row.key, row.qty)] + s[i..]
  }

  function ApplyRows(s: seq<Level>, rows: seq<Row>, cap: nat): seq<Level>
    decreases |rows|
  {
    if rows == [] then s else ApplyRows(ApplyRow(s, rows[0], cap), rows[1..], cap)
  }

  /* ---- what a side stands for ---- */

  ghost predicate Quotes(s: seq<Level>, key: int, qty: int) {
    exists i :: 0 <= i < |s| && s[i] == Level(key, qty)
  }

  /** `m` holds exactly the (key, quantity) pairs listed in `s`. */
  ghost predicate Represents(s: seq<Level>, m: Depth) {
    && (forall i :: 0 <= i < |s| ==> s[i].key in m && m[s[i].key] == s[i].qty)
    && (forall k :: k in m ==> Quotes(s, k, m[k]))
  }

  function MapRow(m: Depth, row: Row): Depth {
    if row.qty <= 0 then m - {row.key} else m[row.key := row.qty]
  }

  function MapRows(m: Depth, rows: seq<Row>): Depth
    decreases |rows|
  {
    if rows == [] then m else MapRows(MapRow(m, rows[0]), rows[1..])
  }

  /* What stands where after an insertion or a deletion. */
  lemma {:induction false} InsertedAt(s: seq<Level>, i: nat, l: Level, k: nat)
    requires i <= |s| && k <= |s|
    ensures (s[..i] + [l] + s[i..])[k] == if k < i then s[k] else if k == i then l else s[k - 1]
  {
  }

  lemma {:induction false} DeletedAt(s: seq<Level>, i: nat, k: nat)
    requires i < |s| && k < |s| - 1
    ensures (s[..i] + s[i + 1..])[k] == if k < i then s[k] else s[k + 1]
  {
  }

  lemma {:induction false} InOrder(s: seq<Level>, i: nat, j: nat)
    requires Ordered(s) && i <= j < |s|
    ensures s[i].key <= s[j].key
  {
  }

  lemma {:induction false} InStrictOrder(s: seq<Level>, i: nat, j: nat)
    requires StrictlyOrdered(s) && i < j < |s|
    ensures s[i].key < s[j].key
  {
  }

  lemma {:induction false} InsertKeepsOrder(s: seq<Level>, i: nat, l: Level)
    requires Ordered(s) && i == LowerBound(s, l.key)
    ensures Ordered(s[..i] + [l] + s[i..])
  {
    var t := s[..i] + [l] + s[i..];
    forall a, b | 0 <= a < b < |t|
      ensures t[a].key <= t[b].key
    {
      InsertedAt(s, i, l, a);
      InsertedAt(s, i, l, b);
      if i < b {
        InOrder(s, i, b - 1);
      }
      if a != i && b != i {
        InOrder(s, if a < i then a else a - 1, if b < i then b else b - 1);
      }
    }
  }

  lemma {:induction false} InsertKeepsStrictOrder(s: seq<Level>, i: nat, l: Level)
    requires StrictlyOrdered(s) && i == LowerBound(s, l.key) && !Found(s, l.key)
    ensures StrictlyOrdered(s[..i] + [l] + s[i..])
  {
    var t := s[..i] + [l] + s[i..];
    forall a, b | 0 <= a < b < |t|
      ensures t[a].key < t[b].key
    {
      InsertedAt(s, i, l, a);
      InsertedAt(s, i, l, b);
      if i < b - 1 {
        InStrictOrder(s, i, b - 1);
      }
      if a != i && b != i {
        InStrictOrder(s, if a < i then a else a - 1, if b < i then b else b - 1);
      }
    }
  }

  lemma {:induction false} DeleteKeepsOrder(s: seq<Level>, i: nat)
    requires i < |s|
    ensures Ordered(s) ==> Ordered(s[..i] + s[i + 1..])
    ensures StrictlyOrdered(s) ==> StrictlyOrdered(s[..i] + s[i + 1..])
  {
    var t := s[..i] + s[i + 1..];
    forall a, b | 0 <= a < b < |t|
      ensures Ordered(s) ==> t[a].key <= t[b].key
      ensures StrictlyOrdered(s) ==> t[a].key < t[b].key
    {
      DeletedAt(s, i, a);
      DeletedAt(s, i, b);
      if Ordered(s) {
        InOrder(s, if a < i then a else a + 1, if b < i then b else b + 1);
      }
      if StrictlyOrdered(s) {
        InStrictOrder(s, if a < i then a else a + 1, if b < i then b else b + 1);
      }
    }
  }

  lemma {:induction false} DeleteKeepsPositive(s: seq<Level>, i: nat)
    requires i < |s|
    ensures Positive(s) ==> Positive(s[..i] + s[i + 1..])
  {
  }

  lemma {:induction false} InsertKeepsPositive(s: seq<Level>, i: nat, l: Level)
    requires i <= |s| && l.qty > 0
    ensures Positive(s) ==> Positive(s[..i] + [l] + s[i..])
  {
  }

  lemma {:induction false} ApplyRowKeepsOrder(s: seq<Level>, row: Row, cap: nat)
    requires Ordered(s)
    ensures Ordered(ApplyRow(s, row, cap))
    ensures |s| <= cap ==> |ApplyRow(s, row, cap)| <= cap
  {
    var i := LowerBound(s, row.key);
    if row.qty <= 0 && Found(s, row.key) {
      DeleteKeepsOrder(s, i);
    } else if row.qty > 0 && !Found(s, row.key) {
      InsertKeepsOrder(s, i, Level(row.key, row.qty));
    }
  }

  lemma {:induction false} ApplyRowKeepsStrictOrder(s: seq<Level>, row: Row, cap: nat)
    requires StrictlyOrdered(s)
    ensures StrictlyOrdered(ApplyRow(s, row, cap))
    ensures Positive(s) ==> Positive(ApplyRow(s, row, cap))
  {
    var i := LowerBound(s, row.key);
    if row.qty <= 0 && Found(s, row.key) {
      DeleteKeepsOrder(s, i);
      DeleteKeepsPositive(s, i);
    } else if row.qty > 0 && !Found(s, row.key) {
      InsertKeepsStrictOrder(s, i, Level(row.key, row.qty));
      InsertKeepsPositive(s, i, Level(row.key, row.qty));
    }
  }

  /** In a strictly ordered side that represents `m`, searching finds a key exactly when `m` has it. */
  lemma {:induction false} FoundIffInMap(s: seq<Level>, m: Depth, key: int)
    requires StrictlyOrdered(s) && Represents(s, m)
    ensures Found(s, key) <==> key in m
  {
    if key in m {
      var j :| 0 <= j < |s| && s[j] == Level(key, m[key]);
    }
  }

  /**
   One row acts on the ordered side as it acts on the map, except that a new key offered to a full
   side is dropped.
   */
  lemma {:induction false} ApplyRowRefinesMap(s: seq<Level>, m: Depth, row: Row, cap: nat)
    requires StrictlyOrdered(s) && Represents(s, m)
    ensures Represents(ApplyRow(s, row, cap),
              if row.qty > 0 && row.key !in m && |s| >= cap then m else MapRow(m, row))
  {
    FoundIffInMap(s, m, row.key);
    if row.key in m {
      if row.qty <= 0 {
        DeleteRefinesMap(s, m, LowerBound(s, row.key));
      } else {
        OverwriteRefinesMap(s, m, LowerBound(s, row.key), row.qty);
      }
    } else if row.qty > 0 && |s| < cap {
      InsertRefinesMap(s, m, LowerBound(s, row.key), Level(row.key, row.qty));
    } else if row.qty <= 0 {
      assert MapRow(m, row) == m;
    }
  }

  lemma {:induction false} DeleteRefinesMap(s: seq<Level>, m: Depth, i: nat)
    requires StrictlyOrdered(s) && Represents(s, m) && i < |s|
    ensures Represents(s[..i] + s[i + 1..], m - {s[i].key})
  {
    var t := s[..i] + s[i + 1..];
    forall k | k in m && k != s[i].key
      ensures Quotes(t, k, m[k])
    {
      var j :| 0 <= j < |s| && s[j] == Level(k, m[k]);
      assert t[if j < i then j else j - 1] == s[j];
    }
  }

  lemma {:induction false} OverwriteRefinesMap(s: seq<Level>, m: Depth, i: nat, qty: int)
    requires StrictlyOrdered(s) && Represents(s, m) && i < |s|
    ensures Represents(s[i := Level(s[i].key, qty)], m[s[i].key := qty])
  {
    var t := s[i := Level(s[i].key, qty)];
    forall k | k in m
      ensures Quotes(t, k, m[s[i].key := qty][k])
    {
      var j :| 0 <= j < |s| && s[j] == Level(k, m[k]);
      assert t[j].key == k;
      assert j != i ==> t[j] == s[j];
    }
  }

  lemma {:induction false} InsertRefinesMap(s: seq<Level>, m: Depth, i: nat, l: Level)
    requires Represents(s, m) && i <= |s| && l.key !in m
    ensures Represents(s[..i] + [l] + s[i..], m[l.key := l.qty])
  {
    var t, n := s[..i] + [l] + s[i..], m[l.key := l.qty];
    assert forall j :: 0 <= j < i ==> t[j] == s[j];
    assert forall j :: i < j < |t| ==> t[j] == s[j - 1];
    assert t[i] == l;
    forall k | k in n
      ensures Quotes(t, k, n[k])
    {
      if k != l.key {
        var j :| 0 <= j < |s| && s[j] == Level(k, m[k]);
        assert t[if j < i then j else j + 1] == s[j];
      }
    }
    forall j | 0 <= j < |t|
      ensures t[j].key in n && n[t[j].key] == t[j].qty
    {
      if j != i {
        var l' := s[if j < i then j else j - 1];
        assert t[j] == l' && l'.key in m;
      }
    }
  }

  /* The side never needs more than `cap` levels while the rows are folded in. */
  ghost predicate Fits(m: Depth, rows: seq<Row>, cap: nat)
    decreases |rows|
  {
    rows == [] || (|MapRow(m, rows[0])| <= cap && Fits(MapRow(m, rows[0]), rows[1..], cap))
  }

  lemma {:induction false} SizeOfRepresented(s: seq<Level>, m: Depth)
    requires StrictlyOrdered(s) && Represents(s, m)
    ensures |m| == |s|
    decreases |s|
  {
    if s == [] {
      assert forall k :: k in m ==> Quotes(s, k, m[k]);
      assert m == map[];
    } else {
      var last := |s| - 1;
      var rest := m - {s[last].key};
      forall k | k in rest
        ensures Quotes(s[..last], k, rest[k])
      {
        var j :| 0 <= j < |s| && s[j] == Level(k, m[k]);
        assert s[..last][j] == s[j];
      }
      SizeOfRepresented(s[..last], rest);
      assert m.Keys == rest.Keys + {s[last].key};
      assert |m.Keys| == |m| && |rest.Keys| == |rest|;
    }
  }

  /** Folding rows into the array side is folding them into the map, while the capacity is not exceeded. */
  lemma {:induction false} ApplyRowsRefinesMap(s: seq<Level>, m: Depth, rows: seq<Row>, cap: nat)
    requires StrictlyOrdered(s) && Positive(s) && Represents(s, m) && Fits(m, rows, cap)
    ensures StrictlyOrdered(ApplyRows(s, rows, cap)) && Positive(ApplyRows(s, rows, cap))
    ensures Represents(ApplyRows(s, rows, cap), MapRows(m, rows))
    decreases |rows|
  {
    if rows != [] {
      ApplyRowKeepsStrictOrder(s, rows[0], cap);
      ApplyRowRefinesMap(s, m, rows[0], cap);
      SizeOfRepresented(s, m);
      if rows[0].qty > 0 && rows[0].key !in m {
        var grown := MapRow(m, rows[0]);
        assert grown.Keys == m.Keys + {rows[0].key};
        assert |grown.Keys| == |grown| && |m.Keys| == |m|;
      }
      ApplyRowsRefinesMap(ApplyRow(s, rows[0], cap), MapRow(m, rows[0]), rows[1..], cap);
    }
  }

  lemma {:induction false} LastIsGreatest(s: seq<Level>, k: nat)
    requires StrictlyOrdered(s) && k < |s|
    ensures s[k].key <= s[|s| - 1].key
  {
  }

  lemma {:induction false} SameLast(s: seq<Level>, t: seq<Level>, m: Depth)
    requires StrictlyOrdered(s) && StrictlyOrdered(t) && Represents(s, m) && Represents(t, m)
    requires |s| == |t| > 0
    ensures s[|s| - 1] == t[|t| - 1]
  {
    var last := |s| - 1;
    var a, b := s[last], t[last];
    assert a.key in m && b.key in m && Quotes(t, a.key, m[a.key]) && Quotes(s, b.key, m[b.key]);
    var j :| 0 <= j < |t| && t[j] == a;
    var k :| 0 <= k < |s| && s[k] == b;
    LastIsGreatest(t, j);
    LastIsGreatest(s, k);
  }

  lemma {:induction false} SameEnds(s: seq<Level>, t: seq<Level>, last: nat)
    requires |s| == |t| == last + 1 && s[..last] == t[..last] && s[last] == t[last]
    ensures s == t
  {
    assert s == s[..last] + [s[last]] && t == t[..last] + [t[last]];
  }

  /** Two strictly ordered sides with the same map are the same sequence: the map determines the array prefix. */
  lemma {:induction false} RepresentationIsUnique(s: seq<Level>, t: seq<Level>, m: Depth)
    requires StrictlyOrdered(s) && StrictlyOrdered(t) && Represents(s, m) && Represents(t, m)
    ensures s == t
    decreases |s|
  {
    SizeOfRepresented(s, m);
    SizeOfRepresented(t, m);
    if s != [] {
      var last := |s| - 1;
      SameLast(s, t, m);
      var rest := m - {s[last].key};
      DropLastRepresents(s, m);
      DropLastRepresents(t, m);
      RepresentationIsUnique(s[..last], t[..last], rest);
      SameEnds(s, t, last);
    }
  }

  lemma {:induction false} DropLastRepresents(s: seq<Level>, m: Depth)
    requires s != [] && StrictlyOrdered(s) && Represents(s, m)
    ensures StrictlyOrdered(s[..|s| - 1]) && Represents(s[..|s| - 1], m - {s[|s| - 1].key})
  {
    var last := |s| - 1;
    forall k | k in m && k != s[last].key
      ensures Quotes(s[..last], k, m[k])
    {
      var j :| 0 <= j < |s| && s[j] == Level(k, m[k]);
      assert s[..last][j] == s[j];
    }
  }

  /* ---- snapshots: drop empty rows, cut at the capacity, sort stably by key ---- */

  /** The levels kept from a snapshot, in arrival order. */
  function Kept(rows: seq<Row>, cap: nat): (s: seq<Level>)
    ensures |s| <= cap
    ensures forall i :: 0 <= i < |s| ==> s[i].qty > 0
  {
    if rows == [] || cap == 0 then []
    else if rows[0].qty <= 0 then Kept(rows[1..], cap)
    else [Level(rows[0].key, rows[0].qty)] + Kept(rows[1..], cap - 1)
  }

  /** Stable insertion: a level goes in front of the first level whose key is not below its own. */
  function InsertSorted(l: Level, s: seq<Level>): (t: seq<Level>)
    requires Ordered(s)
    ensures Ordered(t) && multiset(t) == multiset(s) + multiset{l}
  {
    var i := LowerBound(s, l.key);
    InsertKeepsOrder(s, i, l);
    assert s == s[..i] + s[i..];
    s[..i] + [l] + s[i..]
  }

  /** Stable sort by key, as `argsort(kind="mergesort")` orders the rows. */
  function SortByKey(s: seq<Level>): (t: seq<Level>)
    ensures Ordered(t) && multiset(t) == multiset(s)
  {
    if s == [] then []
    else
      assert s == [s[0]] + s[1..];
      InsertSorted(s[0], SortByKey(s[1..]))
  }

  function FromSnapshot(rows: seq<Row>, cap: nat): (s: seq<Level>)
    ensures Ordered(s) && Positive(s) && |s| <= cap
  {
    var s := SortByKey(Kept(rows, cap));
    assert |multiset(s)| == |s|;
    assert |multiset(Kept(rows, cap))| == |Kept(rows, cap)|;
    assert forall i :: 0 <= i < |s| ==> s[i] in multiset(s) && s[i] in multiset(Kept(rows, cap));
    s
  }

  ghost predicate DistinctKeys(rows: seq<Row>) {
    forall i, j :: 0 <= i < j < |rows| ==> rows[i].key != rows[j].key
  }

  /* The number of rows of a snapshot that carry a quantity. */
  function Quoted(rows: seq<Row>): nat {
    if rows == [] then 0 else (if rows[0].qty > 0 then 1 else 0) + Quoted(rows[1..])
  }

  ghost predicate KeyAmong(rows: seq<Row>, key: int) {
    exists r :: 0 <= r < |rows| && rows[r].key == key
  }

  lemma {:induction false} KeptKeys(rows: seq<Row>, cap: nat)
    requires DistinctKeys(rows)
    ensures KeysDiffer(Kept(rows, cap))
    ensures forall l :: l in Kept(rows, cap) ==> KeyAmong(rows, l.key)
    decreases |rows|
  {
    if rows != [] && cap > 0 {
      var rest := rows[1..];
      var c := if rows[0].qty > 0 then cap - 1 else cap;
      KeptKeys(rest, c);
      forall l | l in Kept(rest, c)
        ensures l.key != rows[0].key && KeyAmong(rows, l.key)
      {
        var r :| 0 <= r < |rest| && rest[r].key == l.key;
        assert rows[r + 1] == rest[r];
      }
      assert forall i :: 0 <= i < |Kept(rest, c)| ==> Kept(rest, c)[i] in Kept(rest, c);
    }
  }

  lemma {:induction false} KeptRepresents(rows: seq<Row>, cap: nat)
    requires DistinctKeys(rows) && Quoted(rows) <= cap
    ensures Represents(Kept(rows, cap), MapRows(map[], rows))
    decreases |rows|
  {
    if rows != [] {
      var row, rest := rows[0], rows[1..];
      MapRowsFromKey(map[], row, rest);
      assert MapRow(map[], row) == if row.qty > 0 then map[row.key := row.qty] else map[];
      var t := Kept(rest, if row.qty > 0 then cap - 1 else cap);
      var m := MapRows(map[], rest);
      KeptRepresents(rest, if row.qty > 0 then cap - 1 else cap);
      KeyNotLater(rows);
      if row.qty > 0 {
        InsertRefinesMap(t, m, 0, Level(row.key, row.qty));
        assert t[..0] + [Level(row.key, row.qty)] + t[0..] == Kept(rows, cap);
      } else if cap > 0 {
        assert m - {row.key} == m;
      } else {
        QuotedBoundsKept(rest);
      }
    }
  }

  lemma {:induction false} QuotedBoundsKept(rows: seq<Row>)
    requires Quoted(rows) == 0
    ensures forall i :: 0 <= i < |rows| ==> rows[i].qty <= 0
  {
    if rows != [] {
      QuotedBoundsKept(rows[1..]);
    }
  }

  /** A key mentioned only by the first row is not in the map of the later rows. */
  lemma {:induction false} KeyNotLater(rows: seq<Row>)
    requires rows != [] && DistinctKeys(rows)
    ensures rows[0].key !in MapRows(map[], rows[1..])
  {
    KeysComeFromRows(map[], rows[1..], rows[0].key);
  }

  lemma {:induction false} KeysComeFromRows(m: Depth, rows: seq<Row>, key: int)
    requires key !in m && forall i :: 0 <= i < |rows| ==> rows[i].key != key
    ensures key !in MapRows(m, rows)
    decreases |rows|
  {
    if rows != [] {
      KeysComeFromRows(MapRow(m, rows[0]), rows[1..], key);
    }
  }

  /** A first row whose key no later row mentions can be folded in last. */
  lemma {:induction false} MapRowsFromKey(m: Depth, first: Row, rest: seq<Row>)
    requires forall i :: 0 <= i < |rest| ==> rest[i].key != first.key
    ensures MapRows(MapRow(m, first), rest) == MapRow(MapRows(m, rest), first)
    decreases |rest|
  {
    if rest != [] {
      assert MapRow(MapRow(m, first), rest[0]) == MapRow(MapRow(m, rest[0]), first);
      MapRowsFromKey(MapRow(m, rest[0]), first, rest[1..]);
    }
  }

  lemma {:induction false} SortKeepsMeaning(s: seq<Level>, m: Depth)
    requires Represents(s, m) && KeysDiffer(s)
    ensures StrictlyOrdered(SortByKey(s)) && Represents(SortByKey(s), m)
  {
    var t := SortByKey(s);
    assert forall l :: l in multiset(t) <==> l in multiset(s);
    forall k | k in m
      ensures Quotes(t, k, m[k])
    {
      assert Level(k, m[k]) in multiset(s);
      assert Level(k, m[k]) in t;
    }
    forall i | 0 <= i < |t|
      ensures t[i].key in m && m[t[i].key] == t[i].qty
    {
      assert t[i] in multiset(t);
      assert t[i] in s;
    }
    forall i, j | 0 <= i < j < |t|
      ensures t[i].key < t[j].key
    {
      if t[i].key == t[j].key {
        assert t[i] == t[j];
        TwiceInMultiset(t, i, j);
        OnceInMultiset(s, t[i]);
      }
    }
  }

  lemma {:induction false} TwiceInMultiset(t: seq<Level>, i: nat, j: nat)
    requires i < j < |t| && t[i] == t[j]
    ensures multiset(t)[t[i]] >= 2
  {
    assert t == t[..j] + [t[j]] + t[j + 1..];
    assert t[i] == t[..j][i];
    assert t[i] in multiset(t[..j]);
  }

  lemma {:induction false} OnceInMultiset(s: seq<Level>, l: Level)
    requires KeysDiffer(s)
    ensures multiset(s)[l] <= 1
    decreases |s|
  {
    if s != [] {
      assert s == [s[0]] + s[1..];
      OnceInMultiset(s[1..], l);
      if s[0] == l {
        assert l !in s[1..];
      }
    }
  }

  /** A snapshot with distinct prices that fits becomes the strictly ordered listing of its map. */
  lemma {:induction false} SnapshotRefinesMap(rows: seq<Row>, cap: nat)
    requires DistinctKeys(rows) && Quoted(rows) <= cap
    ensures var s := FromSnapshot(rows, cap);
            StrictlyOrdered(s) && Positive(s) && Represents(s, MapRows(map[], rows))
  {
    KeptRepresents(rows, cap);
    KeptKeys(rows, cap);
    SortKeepsMeaning(Kept(rows, cap), MapRows(map[], rows));
  }
}
