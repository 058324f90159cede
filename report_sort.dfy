/**
 * The order sortReports establishes: `list::sort` with the comparator
 * "greater damage cost first". `list::sort` is stable, so reports of equal
 * cost keep their relative order; these three properties fix the result.
 */
module ReportSort {
  import opened Accident

  /** Highest cost first. */
  ghost predicate NonIncreasing(rs: seq<Report>) {
    forall i, j :: 0 <= i < j < |rs| ==> rs[i].damageCost >= rs[j].damageCost
  }

  /** The reports of cost c, in their order in rs. */
  function WithCost(rs: seq<Report>, c: int): (sub: seq<Report>)
    ensures |sub| <= |rs|
  {
    if rs == [] then []
    else (if rs[0].damageCost == c then [rs[0]] else []) + WithCost(rs[1..], c)
  }

  /** Stability: every group of equal cost appears in the same order in both. */
  ghost predicate SameTies(a: seq<Report>, b: seq<Report>) {
    forall c :: WithCost(a, c) == WithCost(b, c)
  }

  /**
   * Inserting x into a list sorted by cost: x goes after every report of
   * strictly greater cost and before the rest, so it precedes its equals.
   */
  function InsertByCost(x: Report, rs: seq<Report>): (r: seq<Report>)
    ensures |r| == |rs| + 1 && multiset(r) == multiset(rs) + multiset{x}
    ensures r[0] == x || (rs != [] && r[0] == rs[0])
  {
    if rs == [] || x.damageCost >= rs[0].damageCost then [x] + rs
    else
      assert rs == [rs[0]] + rs[1..];
      [rs[0]] + InsertByCost(x, rs[1..])
  }

  /** Insertion sort: the later reports are sorted, then the first is inserted. */
  function SortByCost(rs: seq<Report>): (sorted: seq<Report>)
    ensures multiset(sorted) == multiset(rs)
  {
    if rs == [] then []
    else
      assert rs == [rs[0]] + rs[1..];
      InsertByCost(rs[0], SortByCost(rs[1..]))
  }

  lemma TailNonIncreasing(rs: seq<Report>)
    requires rs != [] && NonIncreasing(rs)
    ensures NonIncreasing(rs[1..])
  {
    forall i, j | 0 <= i < j < |rs| - 1 ensures rs[1..][i].damageCost >= rs[1..][j].damageCost {
      assert rs[1..][i] == rs[i + 1] && rs[1..][j] == rs[j + 1];
    }
  }

  /** Putting a report in front of a sorted list keeps it sorted when it is at least the first one. */
  lemma ConsNonIncreasing(x: Report, rs: seq<Report>)
    requires NonIncreasing(rs)
    requires rs == [] || x.damageCost >= rs[0].damageCost
    ensures NonIncreasing([x] + rs)
  {
    var r := [x] + rs;
    forall i, j | 0 <= i < j < |r| ensures r[i].damageCost >= r[j].damageCost {
      assert r[j] == rs[j - 1];
      if i == 0 {
        assert rs[0].damageCost >= rs[j - 1].damageCost;
      } else {
        assert r[i] == rs[i - 1];
      }
    }
  }

  lemma {:induction false} InsertKeepsOrder(x: Report, rs: seq<Report>)
    requires NonIncreasing(rs)
    ensures NonIncreasing(InsertByCost(x, rs))
  {
    if rs == [] || x.damageCost >= rs[0].damageCost {
      ConsNonIncreasing(x, rs);
    } else {
      TailNonIncreasing(rs);
      InsertKeepsOrder(x, rs[1..]);
      var ins := InsertByCost(x, rs[1..]);
      assert rs[1..] != [] ==> rs[0].damageCost >= rs[1..][0].damageCost;
      ConsNonIncreasing(rs[0], ins);
    }
  }

  /** The sort puts the highest cost first. */
  lemma {:induction false} SortIsNonIncreasing(rs: seq<Report>)
    ensures NonIncreasing(SortByCost(rs))
  {
    if rs != [] {
      SortIsNonIncreasing(rs[1..]);
      InsertKeepsOrder(rs[0], SortByCost(rs[1..]));
    }
  }

  lemma WithCostCons(x: Report, rs: seq<Report>, c: int)
    ensures WithCost([x] + rs, c) == (if x.damageCost == c then [x] else []) + WithCost(rs, c)
  {
    assert ([x] + rs)[1..] == rs;
  }

  /** Inserting x adds it to the front of its own cost group and leaves the other groups alone. */
  lemma {:induction false} InsertKeepsTies(x: Report, rs: seq<Report>, c: int)
    ensures WithCost(InsertByCost(x, rs), c) == (if x.damageCost == c then [x] else []) + WithCost(rs, c)
  {
    if rs == [] || x.damageCost >= rs[0].damageCost {
      WithCostCons(x, rs, c);
    } else {
      var head, tail := rs[0], rs[1..];
      var ins := InsertByCost(x, tail);
      InsertKeepsTies(x, tail, c);
      WithCostCons(head, ins, c);
      WithCostCons(head, tail, c);
      assert rs == [head] + tail;
      // head and x differ in cost, so at most one of them is in group c
      var hx := if head.damageCost == c then [head] else [];
      var xx := if x.damageCost == c then [x] else [];
      var rest := WithCost(tail, c);
      assert InsertByCost(x, rs) == [head] + ins;
      assert WithCost(InsertByCost(x, rs), c) == hx + (xx + rest);
      assert WithCost(rs, c) == hx + rest;
      if hx == [] {
        assert hx + (xx + rest) == xx + rest;
        assert hx + rest == rest;
      } else {
        assert xx == [];
        assert xx + (hx + rest) == hx + rest;
      }
    }
  }

  /** The sort is stable. */
  lemma {:induction false} SortKeepsTies(rs: seq<Report>, c: int)
    ensures WithCost(SortByCost(rs), c) == WithCost(rs, c)
  {
    if rs != [] {
      SortKeepsTies(rs[1..], c);
      InsertKeepsTies(rs[0], SortByCost(rs[1..]), c);
      WithCostCons(rs[0], rs[1..], c);
      assert rs == [rs[0]] + rs[1..];
    }
  }

  lemma SortIsStable(rs: seq<Report>)
    ensures SameTies(rs, SortByCost(rs))
  {
    forall c ensures WithCost(rs, c) == WithCost(SortByCost(rs), c) {
      SortKeepsTies(rs, c);
    }
  }

  /**
   * Sortedness and stability determine the order: two lists sorted by cost
   * with the same groups of equal cost are the same list. So any stable sort
   * with this comparator, `list::sort` among them, gives SortByCost's result.
   */
  lemma {:induction false} StableSortIsUnique(a: seq<Report>, b: seq<Report>)
    requires NonIncreasing(a) && NonIncreasing(b)
    requires SameTies(a, b)
    ensures a == b
  {
    if a == [] && b == [] {
    } else if a == [] {
      GroupOfHead(b);
      assert false;
    } else if b == [] {
      GroupOfHead(a);
      assert false;
    } else {
      var c := a[0].damageCost;
      var d := b[0].damageCost;
      GroupOfHead(a);
      GroupOfHead(b);
      HeadBoundsGroup(b, c);
      HeadBoundsGroup(a, d);
      assert c == d;
      assert a[0] == WithCost(a, c)[0] == WithCost(b, c)[0] == b[0];
      forall e ensures WithCost(a[1..], e) == WithCost(b[1..], e) {
        assert WithCost(a, e) == WithCost(b, e);
        WithCostCons(a[0], a[1..], e);
        WithCostCons(b[0], b[1..], e);
        assert a == [a[0]] + a[1..];
        assert b == [b[0]] + b[1..];
        var p := if a[0].damageCost == e then [a[0]] else [];
        assert WithCost(a[1..], e) == (p + WithCost(a[1..], e))[|p|..];
        assert WithCost(b[1..], e) == (p + WithCost(b[1..], e))[|p|..];
      }
      StableSortIsUnique(a[1..], b[1..]);
      assert a == [a[0]] + a[1..];
      assert b == [b[0]] + b[1..];
    }
  }

  /** The first report heads its own cost group. */
  lemma GroupOfHead(rs: seq<Report>)
    requires rs != []
    ensures WithCost(rs, rs[0].damageCost) != [] && WithCost(rs, rs[0].damageCost)[0] == rs[0]
  {
    WithCostCons(rs[0], rs[1..], rs[0].damageCost);
    assert rs == [rs[0]] + rs[1..];
  }

  /** Every member of a cost group has that cost and comes from the list. */
  lemma {:induction false} GroupMember(rs: seq<Report>, c: int, i: nat)
    requires i < |WithCost(rs, c)|
    ensures WithCost(rs, c)[i].damageCost == c && WithCost(rs, c)[i] in rs
  {
    assert rs != [];
    var h := if rs[0].damageCost == c then [rs[0]] else [];
    assert WithCost(rs, c) == h + WithCost(rs[1..], c);
    if i < |h| {
      assert WithCost(rs, c)[i] == rs[0];
    } else {
      GroupMember(rs[1..], c, i - |h|);
      assert WithCost(rs, c)[i] == WithCost(rs[1..], c)[i - |h|];
    }
  }

  /** In a sorted list, a non-empty group has cost at most that of the first report. */
  lemma HeadBoundsGroup(rs: seq<Report>, c: int)
    requires rs != [] && NonIncreasing(rs)
    requires WithCost(rs, c) != []
    ensures rs[0].damageCost >= c
  {
    GroupMember(rs, c, 0);
    var y := WithCost(rs, c)[0];
    var k :| 0 <= k < |rs| && rs[k] == y;
    assert k == 0 || rs[0].damageCost >= rs[k].damageCost;
  }
}
