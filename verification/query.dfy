/** List queries over one table: filter, then offset and limit. Rows come back in ascending
    identity order; the store promises no order without `orderBy`, so this is one of its orders. */
module Query {
  import opened Entities

  function Min(a: int, b: int): int {
    if a <= b then a else b
  }

  /** The identities in [0, hi) whose row satisfies `keep`: the rows a `where` selects. */
  function Matching<T>(m: map<int, T>, keep: T -> bool, hi: int): set<int> {
    set k | 0 <= k < hi && k in m && keep(m[k])
  }

  /** How many members of `ks` precede `k`: its position in ascending order. */
  function Rank(ks: set<int>, k: int): nat {
    |set x | x in ks && x < k|
  }

  /** Where a page of `n` candidates starts: at `skip`, or at the end when `skip` runs past it. */
  function Offset(n: nat, p: Page): nat {
    if p.skip.Some? then Min(p.skip.value, n) else 0
  }

  /** How many rows a page of `n` candidates holds: what is left after `skip`, cut to `take`. */
  function Window(n: nat, p: Page): nat {
    var rest := n - Offset(n, p);
    if p.take.Some? then Min(p.take.value, rest) else rest
  }

  /** Every row sits under its own identity, as the primary key guarantees. */
  predicate KeyedBy<T>(m: map<int, T>, key: T -> int) {
    forall k :: k in m ==> key(m[k]) == k
  }

  predicate Ascending(ks: seq<int>) {
    forall i, j :: 0 <= i < j < |ks| ==> ks[i] < ks[j]
  }

  /** The keys in [lo, hi) whose row satisfies `keep`, ascending. */
  function ScanKeys<T>(m: map<int, T>, keep: T -> bool, lo: int, hi: int): (ks: seq<int>)
    decreases hi - lo
    ensures forall i :: 0 <= i < |ks| ==> lo <= ks[i] < hi && ks[i] in m && keep(m[ks[i]])
    ensures Ascending(ks)
    ensures forall k :: lo <= k < hi && k in m && keep(m[k]) ==> k in ks
  {
    if lo >= hi then []
    else (if lo in m && keep(m[lo]) then [lo] else []) + ScanKeys(m, keep, lo + 1, hi)
  }

  /** `skip` then `take`: the run of the input that starts at the offset and holds as many elements
      as the window allows; all of the input when neither is given. */
  function Paginate<T>(xs: seq<T>, p: Page): (r: seq<T>)
    ensures p.skip.None? && p.take.None? ==> r == xs
    ensures |r| == Window(|xs|, p)
    ensures forall i :: 0 <= i < |r| ==> r[i] == xs[Offset(|xs|, p) + i]
  {
    var rest := xs[Offset(|xs|, p)..];
    if p.take.Some? then rest[..Min(p.take.value, |rest|)] else rest
  }

  function Rows<T>(m: map<int, T>, ks: seq<int>): (rows: seq<T>)
    requires forall i :: 0 <= i < |ks| ==> ks[i] in m
    ensures |rows| == |ks| && forall i :: 0 <= i < |ks| ==> rows[i] == m[ks[i]]
  {
    seq(|ks|, i requires 0 <= i < |ks| => m[ks[i]])
  }

  /** A strictly ascending sequence repeats nothing, so it has as many elements as its set. */
  lemma {:induction false} AscendingCard(ks: seq<int>)
    requires Ascending(ks)
    ensures |set x | x in ks| == |ks|
  {
    if |ks| > 0 {
      var tail := ks[1..];
      AscendingCard(tail);
      assert (set x | x in ks) == {ks[0]} + (set x | x in tail) by {
        assert ks == [ks[0]] + tail;
      }
      assert ks[0] !in (set x | x in tail);
    }
  }

  /** The scan holds exactly the matching identities, so its length is their number. */
  lemma ScanIsMatching<T>(m: map<int, T>, keep: T -> bool, hi: int)
    ensures (set x | x in ScanKeys(m, keep, 0, hi)) == Matching(m, keep, hi)
    ensures |ScanKeys(m, keep, 0, hi)| == |Matching(m, keep, hi)|
  {
    AscendingCard(ScanKeys(m, keep, 0, hi));
  }

  /** In an ascending sequence the elements below the j-th are exactly the first j. */
  lemma AscendingPrefix(ks: seq<int>, j: int)
    requires Ascending(ks) && 0 <= j < |ks|
    ensures (set x | x in ks && x < ks[j]) == (set x | x in ks[..j])
  {
    forall x | x in ks && x < ks[j]
      ensures x in ks[..j]
    {
      var i :| 0 <= i < |ks| && ks[i] == x;
      assert i < j;
      assert ks[..j][i] == x;
    }
  }

  /** The j-th scanned identity is preceded by exactly j matching ones. */
  lemma {:induction false} RankOfScan<T>(m: map<int, T>, keep: T -> bool, hi: int, j: int)
    requires 0 <= j < |ScanKeys(m, keep, 0, hi)|
    ensures Rank(Matching(m, keep, hi), ScanKeys(m, keep, 0, hi)[j]) == j
  {
    var ks := ScanKeys(m, keep, 0, hi);
    ScanIsMatching(m, keep, hi);
    AscendingPrefix(ks, j);
    assert (set x | x in Matching(m, keep, hi) && x < ks[j]) == (set x | x in ks && x < ks[j]);
    assert Ascending(ks[..j]);
    AscendingCard(ks[..j]);
  }

  /** `findMany({ where, skip, take })` over the identities [0, hi): only matching rows of the table
      come back, as many as the page window over the matching identities holds, every matching row
      when there is no paging; in a keyed table the rows are distinct, ascending by identity, and the
      i-th is the matching row ranked `skip + i`. */
  function Select<T(==)>(m: map<int, T>, keep: T -> bool, key: T -> int, hi: int, p: Page): (rows: seq<T>)
    ensures forall i :: 0 <= i < |rows| ==> keep(rows[i]) && rows[i] in m.Values
    ensures |rows| == Window(|Matching(m, keep, hi)|, p)
    ensures p.skip.None? && p.take.None? ==> forall k :: k in Matching(m, keep, hi) ==> m[k] in rows
    ensures KeyedBy(m, key) ==> forall i, j :: 0 <= i < j < |rows| ==> key(rows[i]) < key(rows[j])
    ensures KeyedBy(m, key) ==>
              forall i :: 0 <= i < |rows| ==>
                && key(rows[i]) in Matching(m, keep, hi)
                && Rank(Matching(m, keep, hi), key(rows[i])) == Offset(|Matching(m, keep, hi)|, p) + i
  {
    var all := ScanKeys(m, keep, 0, hi);
    var page := Paginate(all, p);
    ScanIsMatching(m, keep, hi);
    SelectRanks(m, keep, hi, p);
    RowsCoverKeys(m, all, p);
    Rows(m, page)
  }

  lemma SelectRanks<T>(m: map<int, T>, keep: T -> bool, hi: int, p: Page)
    ensures var all := ScanKeys(m, keep, 0, hi);
            var page := Paginate(all, p);
            forall i :: 0 <= i < |page| ==> Rank(Matching(m, keep, hi), page[i]) == Offset(|all|, p) + i
  {
    var all := ScanKeys(m, keep, 0, hi);
    var page := Paginate(all, p);
    var from := Offset(|all|, p);
    forall i | 0 <= i < |page|
      ensures Rank(Matching(m, keep, hi), page[i]) == from + i
    {
      assert page[i] == all[from + i];
      RankOfScan(m, keep, hi, from + i);
    }
  }

  lemma RowsCoverKeys<T>(m: map<int, T>, ks: seq<int>, p: Page)
    requires forall i :: 0 <= i < |ks| ==> ks[i] in m
    ensures forall i :: 0 <= i < |Paginate(ks, p)| ==> Paginate(ks, p)[i] in ks
    ensures p.skip.None? && p.take.None? ==> forall k :: k in ks ==> m[k] in Rows(m, Paginate(ks, p))
  {
    if p.skip.None? && p.take.None? {
      forall k | k in ks
        ensures m[k] in Rows(m, ks)
      {
        var i :| 0 <= i < |ks| && ks[i] == k;
        assert Rows(m, ks)[i] == m[k];
      }
    }
  }
}
