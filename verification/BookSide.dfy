/**
 One side of the numpy-backed book: two parallel fixed-capacity arrays of which the first `n`
 entries are live. The source keeps this once for bids (keyed by minus the price) and once for
 asks (keyed by the price), with the same code.
 */
module BookSides {
  import opened Levels
  import opened Sums

  const SCALE: int := 100_000_000

  class BookSide {
    const cap: nat
    const keys: array<int>
    const qtys: array<int>
    var n: nat

    ghost predicate Valid()
      reads this, keys, qtys
    {
      && keys != qtys && keys.Length == cap && qtys.Length == cap
      && n <= cap
      && Ordered(Contents())
    }

    /** The live prefix of the two arrays. */
    ghost function Contents(): (s: seq<Level>)
      requires n <= keys.Length && n <= qtys.Length
      reads this, keys, qtys
      ensures |s| == n
    {
      seq(n, i requires 0 <= i < n && n <= keys.Length && n <= qtys.Length reads this, keys, qtys
             => Level(keys[i], qtys[i]))
    }

    constructor (cap: nat)
      ensures Valid() && this.cap == cap && Contents() == []
      ensures fresh(keys) && fresh(qtys)
    {
      this.cap := cap;
      keys := new int[cap](_ => 0);
      qtys := new int[cap](_ => 0);
      n := 0;
      new;
    }

    /** numpy's `searchsorted` over the live keys. */
    method SearchSorted(key: int) returns (lo: nat)
      requires Valid()
      ensures lo == LowerBound(Contents(), key)
    {
      ghost var s := Contents();
      lo := 0;
      var hi := n;
      while lo < hi
        invariant lo <= LowerBound(s, key) <= hi <= n
      {
        var mid := (lo + hi) / 2;
        assert s[mid].key == keys[mid];
        if keys[mid] < key { lo := mid + 1; } else { hi := mid; }
      }
    }

    /** The slice move `a[idx + 1 : n + 1] = a[idx:n]` followed by `a[idx] = x`. */
    static method OpenGap(a: array<int>, idx: nat, n: nat, x: int)
      requires idx <= n < a.Length
      modifies a
      ensures forall i :: 0 <= i < idx ==> a[i] == old(a[i])
      ensures a[idx] == x
      ensures forall i :: idx < i <= n ==> a[i] == old(a[i - 1])
    {
      forall i | idx < i <= n { a[i] := a[i - 1]; }
      a[idx] := x;
    }

    method InsertAt(idx: nat, key: int, qty: int)
      requires Valid() && idx <= n
      requires Ordered(Contents()[..idx] + [Level(key, qty)] + Contents()[idx..])
      modifies this`n, keys, qtys
      ensures Valid()
      ensures Contents() == if old(n) >= cap then old(Contents())
                            else old(Contents())[..idx] + [Level(key, qty)] + old(Contents())[idx..]
    {
      if n >= cap {
        return;
      }
      ghost var t := Contents()[..idx] + [Level(key, qty)] + Contents()[idx..];
      OpenGap(keys, idx, n, key);
      OpenGap(qtys, idx, n, qty);
      n := n + 1;
      assert Contents() == t;
    }

    method RemoveAt(idx: nat)
      requires Valid()
      modifies this`n, keys, qtys
      ensures Valid()
      ensures Contents() == if idx >= old(n) then old(Contents())
                            else old(Contents())[..idx] + old(Contents())[idx + 1..]
    {
      if idx >= n {
        return;
      }
      ghost var s := Contents();
      forall i | idx <= i < n - 1 { keys[i] := keys[i + 1]; }
      forall i | idx <= i < n - 1 { qtys[i] := qtys[i + 1]; }
      n := n - 1;
      keys[n] := 0;
      qtys[n] := 0;
      assert Contents() == s[..idx] + s[idx + 1..];
    }

    /** `_apply_row_bid` / `_apply_row_ask`. */
    method Apply(row: Row)
      requires Valid()
      modifies this`n, keys, qtys
      ensures Valid()
      ensures Contents() == ApplyRow(old(Contents()), row, cap)
    {
      ghost var s := Contents();
      var idx := SearchSorted(row.key);
      assert idx < n ==> s[idx].key == keys[idx];
      var found := idx < n && keys[idx] == row.key;
      if row.qty <= 0 {
        if found {
          RemoveAt(idx);
        }
      } else if found {
        qtys[idx] := row.qty;
        assert Contents() == s[idx := Level(s[idx].key, row.qty)];
      } else {
        InsertKeepsOrder(s, idx, Level(row.key, row.qty));
        InsertAt(idx, row.key, row.qty);
      }
      ApplyRowKeepsOrder(s, row, cap);
    }

    method ApplyAll(rows: seq<Row>)
      requires Valid()
      modifies this`n, keys, qtys
      ensures Valid()
      ensures Contents() == ApplyRows(old(Contents()), rows, cap)
    {
      for i := 0 to |rows|
        invariant Valid()
        invariant ApplyRows(Contents(), rows[i..], cap) == ApplyRows(old(Contents()), rows, cap)
      {
        assert rows[i..][0] == rows[i] && rows[i..][1..] == rows[i + 1..];
        Apply(rows[i]);
      }
    }

    /** `_fill_side_from_snapshot`, on a side whose live length has been set to 0. */
    method Fill(rows: seq<Row>)
      requires Valid()
      modifies this`n, keys, qtys
      ensures Valid()
      ensures Contents() == FromSnapshot(rows, cap)
    {
      var s := FromSnapshot(rows, cap);
      n := |s|;
      forall i | 0 <= i < |s| { keys[i] := s[i].key; }
      forall i | 0 <= i < |s| { qtys[i] := s[i].qty; }
      assert Contents() == s;
    }

    method Clear()
      requires Valid()
      modifies this`n, keys, qtys
      ensures Valid() && Contents() == []
    {
      n := 0;
      forall i | 0 <= i < keys.Length { keys[i] := 0; }
      forall i | 0 <= i < qtys.Length { qtys[i] := 0; }
    }

    /** One of the two early-exit loops of `get_cumulative_depth`; `sign` turns a key back into a price. */
    method DepthWithin(sign: int, limit: int) returns (usd: int)
      requires Valid()
      ensures usd == DepthWalk(Contents(), sign, limit)
    {
      ghost var s := Contents();
      usd := 0;
      var i := 0;
      while i < n
        invariant 0 <= i <= n
        invariant usd + DepthWalk(s[i..], sign, limit) == DepthWalk(s, sign, limit)
      {
        assert s[i..][0] == s[i] == Level(keys[i], qtys[i]) && s[i..][1..] == s[i + 1..];
        if keys[i] > limit {
          break;
        }
        usd := usd + Notional(sign * keys[i], qtys[i]);
        i := i + 1;
      }
    }
  }

  function Notional(price: int, qty: int): int {
    (price * qty) / SCALE
  }

  function DepthWalk(s: seq<Level>, sign: int, limit: int): int {
    if s == [] || s[0].key > limit then 0
    else Notional(sign * s[0].key, s[0].qty) + DepthWalk(s[1..], sign, limit)
  }

  /* The contribution of one key of the map to the depth within `limit`. */
  ghost function DepthTerm(m: Depth, sign: int, limit: int): int -> real {
    (k: int) => if k in m && k <= limit then Notional(sign * k, m[k]) as real else 0.0
  }

  lemma {:induction false} NothingWithin(s: seq<Level>, m: Depth, sign: int, limit: int)
    requires StrictlyOrdered(s) && Represents(s, m) && s != [] && s[0].key > limit
    ensures SumOver(m.Keys, DepthTerm(m, sign, limit)) == 0.0
  {
    forall k | k in m.Keys
      ensures k > limit
    {
      assert Quotes(s, k, m[k]);
    }
    SumOverSubset({}, m.Keys, DepthTerm(m, sign, limit));
  }

  /** Stopping at the first level outside the limit loses nothing: the walk is the full filter over the map. */
  lemma {:induction false} DepthWalkIsFullFilter(s: seq<Level>, m: Depth, sign: int, limit: int)
    requires StrictlyOrdered(s) && Represents(s, m)
    ensures DepthWalk(s, sign, limit) as real == SumOver(m.Keys, DepthTerm(m, sign, limit))
    decreases |s|
  {
    if s == [] {
      assert forall k :: k in m ==> Quotes(s, k, m[k]);
      assert m.Keys == {};
    } else if s[0].key > limit {
      NothingWithin(s, m, sign, limit);
    } else {
      var rest := m - {s[0].key};
      forall k | k in rest
        ensures Quotes(s[1..], k, rest[k])
      {
        var j :| 0 <= j < |s| && s[j] == Level(k, m[k]);
        assert s[1..][j - 1] == s[j];
      }
      DepthWalkIsFullFilter(s[1..], rest, sign, limit);
      SumOverRemove(m.Keys, DepthTerm(m, sign, limit), s[0].key);
      assert m.Keys - {s[0].key} == rest.Keys;
      SumOverSame(rest.Keys, DepthTerm(m, sign, limit), DepthTerm(rest, sign, limit));
    }
  }
}
