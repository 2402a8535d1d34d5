/**
 * The sales aggregation (SalesAggregationService.calculateAggregates): select
 * the sales of a window and branch, total them, group them by sku and by
 * branch, and pick the sku and the branch with the largest group.
 */
module Aggregation {
  import opened Base
  import opened JavaString
  import opened Entities

  /** SalesAggregatesDTO, with revenue in cents. */
  datatype Aggregates = Aggregates(
    totalUnits: int,
    totalRevenueCents: int,
    topSku: Option<string>,
    topBranch: Option<string>,
    unitsBySku: map<string, int>,
    revenueByBranch: map<string, int>)

  function Units(s: Sale): int { s.units }

  function Revenue(s: Sale): int { s.units * s.priceCents }

  function Sku(s: Sale): string { s.sku }

  function BranchOf(s: Sale): string { s.branch }

  /**
   * The repository query: `soldAt` within [from, to], both ends included, and
   * the branch equal to the filter unless the filter is null or blank.
   */
  predicate Selected(s: Sale, from: Instant, to: Instant, branch: Option<string>) {
    from <= s.soldAt <= to && (NullOrBlank(branch) || s.branch == branch.value)
  }

  /** The sales of `table` the query returns, in table order. */
  function Select(table: seq<Sale>, from: Instant, to: Instant, branch: Option<string>): (r: seq<Sale>)
    ensures forall s :: s in r <==> s in table && Selected(s, from, to, branch)
    ensures |r| <= |table|
  {
    if table == [] then []
    else (if Selected(table[0], from, to, branch) then [table[0]] else []) + Select(table[1..], from, to, branch)
  }

  /** Selection works piece by piece: the sales of `a + b` are those of `a`, then those of `b`. */
  lemma {:induction false} SelectAppend(a: seq<Sale>, b: seq<Sale>, from: Instant, to: Instant, branch: Option<string>)
    ensures Select(a + b, from, to, branch) == Select(a, from, to, branch) + Select(b, from, to, branch)
    decreases |a|
  {
    if a == [] {
      assert a + b == b;
    } else {
      var h := if Selected(a[0], from, to, branch) then [a[0]] else [];
      assert (a + b)[0] == a[0] && (a + b)[1..] == a[1..] + b;
      SelectAppend(a[1..], b, from, to, branch);
      calc {
        Select(a + b, from, to, branch);
        h + Select(a[1..] + b, from, to, branch);
        h + (Select(a[1..], from, to, branch) + Select(b, from, to, branch));
        (h + Select(a[1..], from, to, branch)) + Select(b, from, to, branch);
      }
    }
  }

  /** On one sale: kept exactly when the query matches it. */
  lemma SelectSingle(s: Sale, from: Instant, to: Instant, branch: Option<string>)
    ensures Select([s], from, to, branch) == if Selected(s, from, to, branch) then [s] else []
  {
    assert [s][1..] == [];
  }

  /** The sum of `f` over the sales. */
  function SumOf(ss: seq<Sale>, f: Sale -> int): int {
    if ss == [] then 0 else f(ss[0]) + SumOf(ss[1..], f)
  }

  /** The keys the sales take under `key`. */
  function KeysOf(ss: seq<Sale>, key: Sale -> string): set<string> {
    if ss == [] then {} else {key(ss[0])} + KeysOf(ss[1..], key)
  }

  /** A key belongs to `KeysOf` exactly when some sale has it. */
  lemma {:induction false} KeysOfMember(ss: seq<Sale>, key: Sale -> string, k: string)
    ensures k in KeysOf(ss, key) <==> exists i :: 0 <= i < |ss| && key(ss[i]) == k
  {
    if ss != [] {
      KeysOfMember(ss[1..], key, k);
      if exists i :: 0 <= i < |ss[1..]| && key(ss[1..][i]) == k {
        var i :| 0 <= i < |ss[1..]| && key(ss[1..][i]) == k;
        assert key(ss[i + 1]) == k;
      }
      if exists i :: 0 <= i < |ss| && key(ss[i]) == k {
        var i :| 0 <= i < |ss| && key(ss[i]) == k;
        if i > 0 {
          assert key(ss[1..][i - 1]) == k;
        }
      }
    }
  }

  /** The reference meaning of a group: the sum of `val` over the sales whose key is `k`. */
  function SumWhere(ss: seq<Sale>, key: Sale -> string, val: Sale -> int, k: string): (r: int)
    ensures k !in KeysOf(ss, key) ==> r == 0
  {
    if ss == [] then 0
    else (if key(ss[0]) == k then val(ss[0]) else 0) + SumWhere(ss[1..], key, val, k)
  }

  /** Adds `v` to the entry for `k`, starting from 0 when there is none. */
  function AddTo(m: map<string, int>, k: string, v: int): map<string, int> {
    m[k := (if k in m then m[k] else 0) + v]
  }

  /**
   * `Collectors.groupingBy(key, summing(val))`: exactly the keys present,
   * each mapped to the sum over its group.
   */
  function GroupSum(ss: seq<Sale>, key: Sale -> string, val: Sale -> int): (m: map<string, int>)
    ensures m.Keys == KeysOf(ss, key)
    ensures forall k :: k in m ==> m[k] == SumWhere(ss, key, val, k)
  {
    if ss == [] then map[]
    else AddTo(GroupSum(ss[1..], key, val), key(ss[0]), val(ss[0]))
  }

  /** The sum of the values of a map (in any order). */
  ghost function MapTotal(m: map<string, int>): int
    decreases |m|
  {
    if m == map[] then 0
    else
      var k :| k in m;
      m[k] + MapTotal(m - {k})
  }

  /** The total does not depend on which key is taken out first. */
  lemma {:induction false} MapTotalRemove(m: map<string, int>, k: string)
    requires k in m
    ensures MapTotal(m) == m[k] + MapTotal(m - {k})
    decreases |m|
  {
    var j :| j in m && MapTotal(m) == m[j] + MapTotal(m - {j});
    if j != k {
      MapTotalRemove(m - {j}, k);
      MapTotalRemove(m - {k}, j);
      assert m - {j} - {k} == m - {k} - {j};
    }
  }

  /** Adding `v` to one entry adds `v` to the total. */
  lemma MapTotalAddTo(m: map<string, int>, k: string, v: int)
    ensures MapTotal(AddTo(m, k, v)) == MapTotal(m) + v
  {
    var m' := AddTo(m, k, v);
    MapTotalRemove(m', k);
    assert m' - {k} == m - {k};
    if k in m {
      MapTotalRemove(m, k);
    } else {
      assert m - {k} == m;
    }
  }

  /** The groups add up to the overall sum. */
  lemma {:induction false} GroupSumTotal(ss: seq<Sale>, key: Sale -> string, val: Sale -> int)
    ensures MapTotal(GroupSum(ss, key, val)) == SumOf(ss, val)
  {
    if ss != [] {
      GroupSumTotal(ss[1..], key, val);
      MapTotalAddTo(GroupSum(ss[1..], key, val), key(ss[0]), val(ss[0]));
    }
  }

  /**
   * `stream().max(comparing(value))` over the keys in the given order: the
   * reduction keeps the earlier key on a tie. Returns a key of maximal value,
   * and nothing only for no keys.
   */
  function MaxBy(keys: seq<string>, m: map<string, int>): (r: Option<string>)
    requires forall i :: 0 <= i < |keys| ==> keys[i] in m
    ensures r.None? <==> keys == []
    ensures r.Some? ==> r.value in keys && forall i :: 0 <= i < |keys| ==> m[keys[i]] <= m[r.value]
  {
    if keys == [] then None
    else
      var best := MaxBy(keys[..|keys| - 1], m);
      var last := keys[|keys| - 1];
      if best.Some? && m[best.value] >= m[last] then best else Some(last)
  }

  /** The key of every sale, in sale order (so each key first appears where its first sale is). */
  function KeySeq(ss: seq<Sale>, key: Sale -> string): (r: seq<string>)
    ensures |r| == |ss| && forall i :: 0 <= i < |ss| ==> r[i] == key(ss[i])
  {
    seq(|ss|, i requires 0 <= i < |ss| => key(ss[i]))
  }

  /** Every key in the sale-order key sequence is a key of the grouping. */
  lemma KeySeqInGroups(ss: seq<Sale>, key: Sale -> string, m: map<string, int>)
    requires m.Keys == KeysOf(ss, key)
    ensures forall i :: 0 <= i < |ss| ==> KeySeq(ss, key)[i] in m
  {
    forall i | 0 <= i < |ss|
      ensures KeySeq(ss, key)[i] in m
    {
      KeysOfMember(ss, key, key(ss[i]));
    }
  }

  /** A value maximal along the key sequence is maximal over the whole grouping. */
  lemma MaxOverKeySeq(ss: seq<Sale>, key: Sale -> string, m: map<string, int>, top: string)
    requires m.Keys == KeysOf(ss, key) && top in m
    requires forall i :: 0 <= i < |ss| ==> KeySeq(ss, key)[i] in m && m[KeySeq(ss, key)[i]] <= m[top]
    ensures forall k :: k in m ==> m[k] <= m[top]
  {
    forall k | k in m
      ensures m[k] <= m[top]
    {
      KeysOfMember(ss, key, k);
      var i :| 0 <= i < |ss| && key(ss[i]) == k;
      assert KeySeq(ss, key)[i] == k;
    }
  }

  /** The key of a largest group, or nothing when there are no sales. */
  function TopKey(ss: seq<Sale>, key: Sale -> string, m: map<string, int>): (r: Option<string>)
    requires m.Keys == KeysOf(ss, key)
    ensures r.None? <==> ss == []
    ensures r.Some? ==> r.value in m && forall k :: k in m ==> m[k] <= m[r.value]
  {
    var keys := KeySeq(ss, key);
    KeySeqInGroups(ss, key, m);
    var r := MaxBy(keys, m);
    if r.None? then r
    else
      MaxOverKeySeq(ss, key, m, r.value);
      r
  }

  /**
   * The fold over the selected sales: totals, the two groupings, and the top
   * sku and branch.
   */
  function Aggregate(ss: seq<Sale>): (r: Aggregates)
    ensures r.totalUnits == SumOf(ss, Units) && r.totalRevenueCents == SumOf(ss, Revenue)
    ensures r.unitsBySku.Keys == KeysOf(ss, Sku)
    ensures forall k :: k in r.unitsBySku ==> r.unitsBySku[k] == SumWhere(ss, Sku, Units, k)
    ensures r.revenueByBranch.Keys == KeysOf(ss, BranchOf)
    ensures forall b :: b in r.revenueByBranch ==> r.revenueByBranch[b] == SumWhere(ss, BranchOf, Revenue, b)
    ensures r.topSku.None? <==> ss == []
    ensures r.topSku.Some? ==>
      (r.topSku.value in r.unitsBySku && forall k :: k in r.unitsBySku ==> r.unitsBySku[k] <= r.unitsBySku[r.topSku.value])
    ensures r.topBranch.None? <==> ss == []
    ensures r.topBranch.Some? ==>
      (r.topBranch.value in r.revenueByBranch
       && forall b :: b in r.revenueByBranch ==> r.revenueByBranch[b] <= r.revenueByBranch[r.topBranch.value])
  {
    var bySku := GroupSum(ss, Sku, Units);
    var byBranch := GroupSum(ss, BranchOf, Revenue);
    Aggregates(
      SumOf(ss, Units),
      SumOf(ss, Revenue),
      TopKey(ss, Sku, bySku),
      TopKey(ss, BranchOf, byBranch),
      bySku,
      byBranch)
  }

  /** `calculateAggregates(from, to, branch)` over the table's sales, in table order. */
  function CalculateAggregates(table: seq<Sale>, from: Instant, to: Instant, branch: Option<string>): (r: Aggregates)
    ensures forall k :: k in r.unitsBySku <==> exists s :: s in table && Selected(s, from, to, branch) && s.sku == k
    ensures r.topSku.None? <==> forall s :: s in table ==> !Selected(s, from, to, branch)
    ensures r.topBranch.None? <==> forall s :: s in table ==> !Selected(s, from, to, branch)
  {
    var ss := Select(table, from, to, branch);
    SelectedSkus(table, from, to, branch);
    Aggregate(ss)
  }

  /** The skus of the selection are the skus of the selected sales of the table. */
  lemma SelectedSkus(table: seq<Sale>, from: Instant, to: Instant, branch: Option<string>)
    ensures forall k :: (k in KeysOf(Select(table, from, to, branch), Sku)
      <==> exists s :: s in table && Selected(s, from, to, branch) && s.sku == k)
    ensures Select(table, from, to, branch) == [] <==> forall s :: s in table ==> !Selected(s, from, to, branch)
  {
    var ss := Select(table, from, to, branch);
    forall k
      ensures k in KeysOf(ss, Sku) <==> exists s :: s in table && Selected(s, from, to, branch) && s.sku == k
    {
      KeysOfMember(ss, Sku, k);
      if exists s :: s in table && Selected(s, from, to, branch) && s.sku == k {
        var s :| s in table && Selected(s, from, to, branch) && s.sku == k;
        var i :| 0 <= i < |ss| && ss[i] == s;
        assert Sku(ss[i]) == k;
      }
    }
    if ss != [] {
      assert ss[0] in table && Selected(ss[0], from, to, branch);
    }
  }

  /** The groups add up to the totals: unitsBySku sums to totalUnits, revenueByBranch to totalRevenue. */
  lemma AggregateGroupsSumToTotals(ss: seq<Sale>)
    ensures MapTotal(Aggregate(ss).unitsBySku) == Aggregate(ss).totalUnits
    ensures MapTotal(Aggregate(ss).revenueByBranch) == Aggregate(ss).totalRevenueCents
  {
    GroupSumTotal(ss, Sku, Units);
    GroupSumTotal(ss, BranchOf, Revenue);
  }

  /** An empty selection: zero totals, empty groups, no top sku or branch. */
  lemma EmptyAggregate()
    ensures Aggregate([]) == Aggregates(0, 0, None, None, map[], map[])
  {
  }

  /**
   * When every sale has at least one unit and a positive price, as a valid
   * SaleRequest guarantees, every group is positive and there are at least as
   * many units as sales.
   */
  lemma {:induction false} PositiveSales(ss: seq<Sale>)
    requires forall i :: 0 <= i < |ss| ==> ss[i].units >= 1 && ss[i].priceCents >= 1
    ensures SumOf(ss, Units) >= |ss| && SumOf(ss, Revenue) >= |ss|
  {
    if ss != [] {
      PositiveSales(ss[1..]);
      assert Revenue(ss[0]) >= 1 by {
        var u, p := ss[0].units, ss[0].priceCents;
        assert u * p >= u * 1;
      }
    }
  }

  /** A sale as the aggregation tests build it: a given sku, units, price and branch. */
  function TestSale(id: string, sku: string, units: int, priceCents: int, branch: string, soldAt: Instant): Sale {
    Sale(Some(id), sku, units, priceCents, branch, soldAt, "test", Some(soldAt))
  }

  /** The three sales of the worked example. */
  function WorkedSales(): seq<Sale> {
    [TestSale("s1", "OREO_CLASSIC", 10, 199, "Miraflores", 50),
     TestSale("s2", "OREO_DOUBLE", 5, 249, "San Isidro", 50),
     TestSale("s3", "OREO_CLASSIC", 15, 199, "Miraflores", 50)]
  }

  lemma WorkedSelection()
    ensures Select(WorkedSales(), 0, 100, None) == WorkedSales()
  {
    var ss := WorkedSales();
    var s2, s3 := ss[1], ss[2];
    assert ss[1..] == [s2, s3] && ss[1..][1..] == [s3] && [s3][1..] == [];
    assert Select([s3], 0, 100, None) == [s3];
    assert Select([s2, s3], 0, 100, None) == [s2, s3];
  }

  lemma WorkedSkuGroups()
    ensures GroupSum(WorkedSales(), Sku, Units) == map["OREO_CLASSIC" := 25, "OREO_DOUBLE" := 5]
  {
    var ss := WorkedSales();
    var s2, s3 := ss[1], ss[2];
    assert ss[1..] == [s2, s3] && ss[1..][1..] == [s3] && [s3][1..] == [];
    assert GroupSum([s3], Sku, Units) == map["OREO_CLASSIC" := 15];
    assert GroupSum([s2, s3], Sku, Units) == map["OREO_CLASSIC" := 15, "OREO_DOUBLE" := 5];
  }

  lemma WorkedBranchGroups()
    ensures GroupSum(WorkedSales(), BranchOf, Revenue) == map["Miraflores" := 4975, "San Isidro" := 1245]
  {
    var ss := WorkedSales();
    var s2, s3 := ss[1], ss[2];
    assert "Miraflores"[0] != "San Isidro"[0];
    assert ss[1..] == [s2, s3] && ss[1..][1..] == [s3] && [s3][1..] == [];
    assert GroupSum([s3], BranchOf, Revenue) == map["Miraflores" := 2985];
    assert GroupSum([s2, s3], BranchOf, Revenue) == map["Miraflores" := 2985, "San Isidro" := 1245];
  }

  lemma WorkedTotals()
    ensures SumOf(WorkedSales(), Units) == 30 && SumOf(WorkedSales(), Revenue) == 6220
  {
    var ss := WorkedSales();
    assert ss[1..] == [ss[1], ss[2]] && ss[1..][1..] == [ss[2]] && [ss[2]][1..] == [];
  }

  /** In a two-key map whose first value is strictly larger, a maximal key is the first. */
  lemma TopOfTwo(m: map<string, int>, top: string, a: string, x: int, b: string, y: int)
    requires m == map[a := x, b := y] && x > y
    requires top in m && forall k :: k in m ==> m[k] <= m[top]
    ensures top == a
  {
    assert a in m;
  }

  /**
   * The worked example: 10 and 15 OREO_CLASSIC at 1.99 in Miraflores and 5
   * OREO_DOUBLE at 2.49 in San Isidro give 30 units, 62.20 in revenue, top sku
   * OREO_CLASSIC and top branch Miraflores.
   */
  lemma WorkedExample()
    ensures var a := CalculateAggregates(WorkedSales(), 0, 100, None);
      && a.totalUnits == 30 && a.totalRevenueCents == 6220
      && a.topSku == Some("OREO_CLASSIC") && a.topBranch == Some("Miraflores")
  {
    var ss := WorkedSales();
    WorkedSelection();
    WorkedSkuGroups();
    WorkedBranchGroups();
    WorkedTotals();
    var a := Aggregate(ss);
    assert CalculateAggregates(ss, 0, 100, None) == a;
    TopOfTwo(a.unitsBySku, a.topSku.value, "OREO_CLASSIC", 25, "OREO_DOUBLE", 5);
    TopOfTwo(a.revenueByBranch, a.topBranch.value, "Miraflores", 4975, "San Isidro", 1245);
  }

  /** Two skus tied on units: the top sku is one of the two. */
  lemma TieExample()
    ensures var a := Aggregate([
        TestSale("s1", "SKU_A", 10, 100, "B", 50),
        TestSale("s2", "SKU_B", 10, 100, "B", 50)]);
      a.topSku == Some("SKU_A") || a.topSku == Some("SKU_B")
  {
    var ss := [TestSale("s1", "SKU_A", 10, 100, "B", 50), TestSale("s2", "SKU_B", 10, 100, "B", 50)];
    assert ss[1..] == [ss[1]] && [ss[1]][1..] == [];
    assert KeysOf(ss, Sku) == {"SKU_A", "SKU_B"};
  }

  /** A branch filter keeps only that branch's sales: the branch test gives 5 units, all in Miraflores. */
  lemma BranchFilterExample()
    ensures var a := CalculateAggregates([
        TestSale("s1", "A", 3, 100, "Miraflores", 50),
        TestSale("s2", "B", 2, 200, "Miraflores", 50),
        TestSale("s3", "C", 7, 100, "San Isidro", 50)], 0, 100, Some("Miraflores"));
      a.totalUnits == 5 && a.topBranch == Some("Miraflores")
  {
    var s1 := TestSale("s1", "A", 3, 100, "Miraflores", 50);
    var s2 := TestSale("s2", "B", 2, 200, "Miraflores", 50);
    var s3 := TestSale("s3", "C", 7, 100, "San Isidro", 50);
    var table := [s1, s2, s3];
    assert !IsBlank("Miraflores") by { NotBlankByFirst("Miraflores"); }
    assert "Miraflores"[0] != "San Isidro"[0];
    assert table[1..] == [s2, s3] && table[1..][1..] == [s3] && [s3][1..] == [];
    assert !Selected(s3, 0, 100, Some("Miraflores"));
    assert Select([s3], 0, 100, Some("Miraflores")) == [];
    assert Select([s2, s3], 0, 100, Some("Miraflores")) == [s2];
    assert Select(table, 0, 100, Some("Miraflores")) == [s1, s2];
    var ss := [s1, s2];
    assert ss[1..] == [s2] && [s2][1..] == [];
    assert KeysOf([s2], BranchOf) == {"Miraflores"};
    assert KeysOf(ss, BranchOf) == {"Miraflores"};
  }
}
