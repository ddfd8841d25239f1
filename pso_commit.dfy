/**
  The commit phase of `PSO.optimise` (optimisation.py:258-262, 307-364):
  the swarm's best activation matrix is cut down to what each active UAV's
  users need and to its capacity, new activations beyond A_max are dropped
  in favour of the most demanded VNFs, and the result is pushed into the
  UAVs through `activate_vnf`.
*/
module PsoCommit {
  import opened Geometry
  import opened Entities
  import opened Sorting
  import opened PsoSearch

  /** A cell (UAV row, VNF column) of an activation matrix, as `np.argwhere` lists it. */
  datatype Cell = Cell(uav: nat, vnf: nat)

  function Min(a: nat, b: nat): nat {
    if a < b then a else b
  }

  /** No element occurs twice. */
  ghost predicate NoRepeats<T(!new)>(s: seq<T>) {
    forall x :: multiset(s)[x] <= 1
  }

  function Elems<T>(s: seq<T>): set<T> {
    set x | x in s
  }

  lemma {:induction false} NoRepeatsCard<T(!new)>(s: seq<T>)
    requires NoRepeats(s)
    ensures |Elems(s)| == |s|
  {
    if s != [] {
      var t := s[..|s| - 1];
      var x := s[|s| - 1];
      assert s == t + [x];
      assert multiset(s) == multiset(t) + multiset{x};
      assert NoRepeats(t) by {
        forall y
          ensures multiset(t)[y] <= 1
        {
          assert multiset(s)[y] == multiset(t)[y] + multiset{x}[y];
        }
      }
      assert multiset(s)[x] == multiset(t)[x] + 1;
      assert x !in t;
      NoRepeatsCard(t);
      assert Elems(s) == Elems(t) + {x};
    }
  }

  lemma NoRepeatsPrefix<T(!new)>(s: seq<T>, k: nat)
    requires NoRepeats(s) && k <= |s|
    ensures NoRepeats(s[..k])
  {
    assert s == s[..k] + s[k..];
    assert multiset(s) == multiset(s[..k]) + multiset(s[k..]);
    forall y
      ensures multiset(s[..k])[y] <= 1
    {
      assert multiset(s)[y] == multiset(s[..k])[y] + multiset(s[k..])[y];
    }
  }

  lemma NoRepeatsAppend<T(!new)>(a: seq<T>, b: seq<T>)
    requires NoRepeats(a) && NoRepeats(b)
    requires forall x :: x in a ==> x !in b
    ensures NoRepeats(a + b)
  {
    assert multiset(a + b) == multiset(a) + multiset(b);
    forall y
      ensures multiset(a + b)[y] <= 1
    {
      if y in a {
        assert y !in b;
        assert multiset(b)[y] == 0;
      }
    }
  }

  // ---------------------------------------------------------------------
  // The matrices

  /** `old_activations` (optimisation.py:259-262): a 1 exactly at the active VNFs. */
  function OldMatrix(active: seq<set<nat>>): (m: Matrix)
    ensures IsMatrix(m, |active|)
  {
    seq(|active|, i requires 0 <= i < |active| => seq(NUM_VNFS, v requires 0 <= v < NUM_VNFS => v in active[i]))
  }

  /** The VNFs requested by any of `users` (optimisation.py:320-322). */
  function Needed(users: seq<UserRequest>): (s: set<nat>)
    ensures forall v :: v in s <==> exists r :: r in users && v in r.requestedVnfs
  {
    if users == [] then {}
    else
      var prefix := users[..|users| - 1];
      assert forall r :: r in users <==> r in prefix || r == users[|users| - 1];
      Needed(prefix) + RequestedSet(users[|users| - 1])
  }

  /**
    optimisation.py:315-331: an inactive UAV's row is empty; an active UAV's
    row holds only VNFs that are both on in the swarm's best row and needed
    by its users, all of them when they fit its capacity and exactly
    `max_vnfs` of them otherwise (`random.sample` may pick any).
  */
  ghost predicate RowChoice(active: bool, needed: set<nat>, cap: nat, bestRow: seq<bool>, row: seq<bool>) {
    if !active then RowSet(row) == {}
    else
      var valid := RowSet(bestRow) * needed;
      RowSet(row) <= valid && |RowSet(row)| == Min(|valid|, cap)
  }

  ghost predicate ValidSelection(active: seq<bool>, needed: seq<set<nat>>, caps: seq<nat>, gbest: Matrix, sel: Matrix) {
    && |active| == |needed| == |caps|
    && IsMatrix(gbest, |active|) && IsMatrix(sel, |active|)
    && forall i :: 0 <= i < |active| ==> RowChoice(active[i], needed[i], caps[i], gbest[i], sel[i])
  }

  /** The number of times `v` occurs in `s`. */
  function Count(s: seq<nat>, v: nat): (n: nat)
    ensures n == multiset(s)[v]
  {
    if s == [] then 0
    else
      assert s == s[..|s| - 1] + [s[|s| - 1]];
      Count(s[..|s| - 1], v) + (if s[|s| - 1] == v then 1 else 0)
  }

  /** `vnf_demand[v]` (optimisation.py:310-313): occurrences of `v` over all requests. */
  function Demand(requests: seq<UserRequest>, v: nat): nat {
    if requests == [] then 0
    else Demand(requests[..|requests| - 1], v) + Count(requests[|requests| - 1].requestedVnfs, v)
  }

  /** How many requests ask for `v`. */
  function Askers(requests: seq<UserRequest>, v: nat): nat {
    if requests == [] then 0
    else Askers(requests[..|requests| - 1], v) + (if v in requests[|requests| - 1].requestedVnfs then 1 else 0)
  }

  /**
    When no request names a VNF twice (as `random.sample` guarantees), the
    demand of a VNF is the number of requests asking for it.
  */
  lemma {:induction false} DemandCountsRequests(requests: seq<UserRequest>, v: nat)
    requires forall k :: 0 <= k < |requests| ==> NoRepeats(requests[k].requestedVnfs)
    ensures Demand(requests, v) == Askers(requests, v)
  {
    if requests != [] {
      var last: seq<nat> := requests[|requests| - 1].requestedVnfs;
      var m: multiset<nat> := multiset(last);
      DemandCountsRequests(requests[..|requests| - 1], v);
      assert Count(last, v) == m[v];
      if v in last {
        assert v in m;
      } else {
        assert m[v] == 0;
      }
    }
  }

  function Demands(requests: seq<UserRequest>): (d: seq<nat>)
    ensures |d| == NUM_VNFS && forall v :: 0 <= v < NUM_VNFS ==> d[v] == Demand(requests, v)
  {
    seq(NUM_VNFS, v requires 0 <= v < NUM_VNFS => Demand(requests, v))
  }

  /** The row-`i` cells among its first `v` columns that `sel` turns on and `before` has off. */
  function NewCellsInRow(oldRow: seq<bool>, selRow: seq<bool>, i: nat, v: nat): seq<Cell>
    requires v <= |oldRow| && v <= |selRow|
  {
    if v == 0 then []
    else NewCellsInRow(oldRow, selRow, i, v - 1)
         + (if selRow[v - 1] && !oldRow[v - 1] then [Cell(i, v - 1)] else [])
  }

  /** `np.argwhere(delta == 1)` over the first `n` rows, in row-major order. */
  function NewCells(before: Matrix, sel: Matrix, n: nat): seq<Cell>
    requires IsMatrix(before, |before|) && IsMatrix(sel, |before|) && n <= |before|
  {
    if n == 0 then []
    else NewCells(before, sel, n - 1) + NewCellsInRow(before[n - 1], sel[n - 1], n - 1, |sel[n - 1]|)
  }

  /** The cells listed for row `i` are the ones there that `sel` turns on. */
  lemma {:induction false} NewCellsInRowMembership(oldRow: seq<bool>, selRow: seq<bool>, i: nat, v: nat)
    requires v <= |oldRow| && v <= |selRow|
    ensures forall c :: c in NewCellsInRow(oldRow, selRow, i, v) <==>
      c.uav == i && c.vnf < v && selRow[c.vnf] && !oldRow[c.vnf]
  {
    if v > 0 {
      NewCellsInRowMembership(oldRow, selRow, i, v - 1);
      var tail := if selRow[v - 1] && !oldRow[v - 1] then [Cell(i, v - 1)] else [];
      assert NewCellsInRow(oldRow, selRow, i, v) == NewCellsInRow(oldRow, selRow, i, v - 1) + tail;
    }
  }

  /** A list of at most one element repeats nothing. */
  lemma AtMostOneNoRepeats<T(!new)>(s: seq<T>)
    requires |s| <= 1
    ensures NoRepeats(s)
  {
    if |s| == 1 {
      assert s == [s[0]];
      assert multiset(s) == multiset{s[0]};
    }
  }

  lemma {:induction false} NewCellsInRowNoRepeats(oldRow: seq<bool>, selRow: seq<bool>, i: nat, v: nat)
    requires v <= |oldRow| && v <= |selRow|
    ensures NoRepeats(NewCellsInRow(oldRow, selRow, i, v))
  {
    if v > 0 {
      var prefix := NewCellsInRow(oldRow, selRow, i, v - 1);
      var tail := if selRow[v - 1] && !oldRow[v - 1] then [Cell(i, v - 1)] else [];
      NewCellsInRowNoRepeats(oldRow, selRow, i, v - 1);
      NewCellsInRowMembership(oldRow, selRow, i, v - 1);
      AtMostOneNoRepeats(tail);
      assert forall c :: c in prefix ==> c !in tail;
      NoRepeatsAppend(prefix, tail);
    }
  }

  lemma NewCellsInRowFacts(oldRow: seq<bool>, selRow: seq<bool>, i: nat, v: nat)
    requires v <= |oldRow| && v <= |selRow|
    ensures NoRepeats(NewCellsInRow(oldRow, selRow, i, v))
    ensures forall c :: c in NewCellsInRow(oldRow, selRow, i, v) <==>
      c.uav == i && c.vnf < v && selRow[c.vnf] && !oldRow[c.vnf]
  {
    NewCellsInRowNoRepeats(oldRow, selRow, i, v);
    NewCellsInRowMembership(oldRow, selRow, i, v);
  }

  /** The listed cells are exactly those `sel` has on and `before` off, in the first `n` rows. */
  lemma {:induction false} NewCellsMembership(before: Matrix, sel: Matrix, n: nat)
    requires IsMatrix(before, |before|) && IsMatrix(sel, |before|) && n <= |before|
    ensures forall c :: c in NewCells(before, sel, n) <==>
      c.uav < n && c.vnf < NUM_VNFS && sel[c.uav][c.vnf] && !before[c.uav][c.vnf]
  {
    if n > 0 {
      NewCellsMembership(before, sel, n - 1);
      NewCellsInRowMembership(before[n - 1], sel[n - 1], n - 1, |sel[n - 1]|);
      var a := NewCells(before, sel, n - 1);
      var b := NewCellsInRow(before[n - 1], sel[n - 1], n - 1, |sel[n - 1]|);
      assert NewCells(before, sel, n) == a + b;
    }
  }

  lemma {:induction false} NewCellsNoRepeats(before: Matrix, sel: Matrix, n: nat)
    requires IsMatrix(before, |before|) && IsMatrix(sel, |before|) && n <= |before|
    ensures NoRepeats(NewCells(before, sel, n))
    ensures RowsBelow(NewCells(before, sel, n), n)
  {
    if n > 0 {
      NewCellsNoRepeats(before, sel, n - 1);
      NewCellsStep(before, sel, n);
    }
  }

  /** Row `n - 1` adds no repeat to the cells of the rows before it. */
  lemma NewCellsStep(before: Matrix, sel: Matrix, n: nat)
    requires IsMatrix(before, |before|) && IsMatrix(sel, |before|) && 0 < n <= |before|
    requires NoRepeats(NewCells(before, sel, n - 1)) && RowsBelow(NewCells(before, sel, n - 1), n - 1)
    ensures NoRepeats(NewCells(before, sel, n)) && RowsBelow(NewCells(before, sel, n), n)
  {
    var b := NewCellsInRow(before[n - 1], sel[n - 1], n - 1, |sel[n - 1]|);
    assert NoRepeats(b) by {
      NewCellsInRowNoRepeats(before[n - 1], sel[n - 1], n - 1, |sel[n - 1]|);
    }
    assert InRow(b, n - 1) by {
      NewCellsInRowAt(before[n - 1], sel[n - 1], n - 1, |sel[n - 1]|);
    }
    NoRepeatsRows(NewCells(before, sel, n - 1), b, n - 1);
  }

  /** Every cell of `s` lies in a row before `k`. */
  predicate RowsBelow(s: seq<Cell>, k: nat) {
    forall j :: 0 <= j < |s| ==> s[j].uav < k
  }

  /** Every cell of `s` lies in row `k`. */
  predicate InRow(s: seq<Cell>, k: nat) {
    forall j :: 0 <= j < |s| ==> s[j].uav == k
  }

  /** The cells of row `i` lie in row `i`. */
  lemma {:induction false} NewCellsInRowAt(oldRow: seq<bool>, selRow: seq<bool>, i: nat, v: nat)
    requires v <= |oldRow| && v <= |selRow|
    ensures InRow(NewCellsInRow(oldRow, selRow, i, v), i)
  {
    if v > 0 {
      NewCellsInRowAt(oldRow, selRow, i, v - 1);
    }
  }

  /** Cells of rows before `k` followed by cells of row `k`, each part without repeats, have none. */
  lemma NoRepeatsRows(a: seq<Cell>, b: seq<Cell>, k: nat)
    requires NoRepeats(a) && NoRepeats(b)
    requires RowsBelow(a, k) && InRow(b, k)
    ensures NoRepeats(a + b) && RowsBelow(a + b, k + 1)
  {
    forall x | x in a
      ensures x !in b
    {
      var j :| 0 <= j < |a| && a[j] == x;
    }
    NoRepeatsAppend(a, b);
  }

  /** The new cells are exactly the cells `sel` has on and `before` off, each listed once. */
  lemma NewCellsFacts(before: Matrix, sel: Matrix, n: nat)
    requires IsMatrix(before, |before|) && IsMatrix(sel, |before|) && n <= |before|
    ensures NoRepeats(NewCells(before, sel, n))
    ensures forall c :: c in NewCells(before, sel, n) <==>
      c.uav < n && c.vnf < NUM_VNFS && sel[c.uav][c.vnf] && !before[c.uav][c.vnf]
  {
    NewCellsNoRepeats(before, sel, n);
    NewCellsMembership(before, sel, n);
  }

  /** The demand of a cell's VNF (0 outside the catalogue). */
  function CellDemand(demand: seq<nat>, c: Cell): nat {
    if c.vnf < |demand| then demand[c.vnf] else 0
  }

  /** The order of `sorted(..., key=vnf_demand[x[1]], reverse=True)`: higher demand first. */
  function MoreDemand(demand: seq<nat>): (Cell, Cell) -> bool {
    (a: Cell, b: Cell) => CellDemand(demand, a) >= CellDemand(demand, b)
  }

  lemma MoreDemandTotalPreorder(demand: seq<nat>)
    ensures TotalPreorder(MoreDemand(demand))
  {
  }

  /** `old_activations + delta`, clipped to 0/1, with `delta` one exactly at `allowed`. */
  function Overlay(before: Matrix, allowed: seq<Cell>): (m: Matrix)
    requires IsMatrix(before, |before|)
    ensures IsMatrix(m, |before|)
  {
    seq(|before|, i requires 0 <= i < |before| =>
      seq(NUM_VNFS, v requires 0 <= v < NUM_VNFS => before[i][v] || Cell(i, v) in allowed))
  }

  /** The new cells `allowed` when more than `aMax` cells would turn on (optimisation.py:340-345). */
  function Allowed(before: Matrix, sel: Matrix, demand: seq<nat>, aMax: nat): seq<Cell>
    requires IsMatrix(before, |before|) && IsMatrix(sel, |before|) && aMax <= |NewCells(before, sel, |before|)|
  {
    SortBy(NewCells(before, sel, |before|), MoreDemand(demand))[..aMax]
  }

  /** `new_activations` after the A_max limit (optimisation.py:333-351). */
  function Limited(before: Matrix, sel: Matrix, demand: seq<nat>, aMax: nat): Matrix
    requires IsMatrix(before, |before|) && IsMatrix(sel, |before|)
  {
    if |NewCells(before, sel, |before|)| <= aMax then sel
    else Overlay(before, Allowed(before, sel, demand, aMax))
  }

  /** The set of cells `m` turns on that `before` has off. */
  function TurnedOn(before: Matrix, m: Matrix): set<Cell>
    requires IsMatrix(before, |before|) && IsMatrix(m, |before|)
  {
    Elems(NewCells(before, m, |before|))
  }

  /** The allowed cells are `aMax` different new cells. */
  lemma AllowedFacts(before: Matrix, sel: Matrix, demand: seq<nat>, aMax: nat)
    requires IsMatrix(before, |before|) && IsMatrix(sel, |before|) && aMax <= |NewCells(before, sel, |before|)|
    ensures var allowed := Allowed(before, sel, demand, aMax);
      && |Elems(allowed)| == aMax
      && Elems(allowed) <= Elems(NewCells(before, sel, |before|))
  {
    var cells := NewCells(before, sel, |before|);
    NewCellsFacts(before, sel, |before|);
    var sorted := SortBy(cells, MoreDemand(demand));
    SortByPermutes(cells, MoreDemand(demand));
    assert NoRepeats(sorted) by {
      forall y
        ensures multiset(sorted)[y] <= 1
      {
        assert multiset(sorted)[y] == multiset(cells)[y];
      }
    }
    NoRepeatsPrefix(sorted, aMax);
    NoRepeatsCard(sorted[..aMax]);
    forall c | c in sorted[..aMax]
      ensures c in cells
    {
      assert c in multiset(sorted);
    }
  }

  /** Overlaying cells that are off turns on exactly those cells. */
  lemma OverlayTurnsOn(before: Matrix, allowed: seq<Cell>)
    requires IsMatrix(before, |before|)
    requires forall c :: c in allowed ==> c.uav < |before| && c.vnf < NUM_VNFS && !before[c.uav][c.vnf]
    ensures TurnedOn(before, Overlay(before, allowed)) == Elems(allowed)
  {
    NewCellsFacts(before, Overlay(before, allowed), |before|);
  }

  /** In the demand order, an earlier cell has no less demand than a later one. */
  lemma SortedByDemand(cells: seq<Cell>, demand: seq<nat>, p: nat, q: nat)
    requires p < q < |cells|
    ensures var sorted := SortBy(cells, MoreDemand(demand));
      CellDemand(demand, sorted[p]) >= CellDemand(demand, sorted[q])
  {
    MoreDemandTotalPreorder(demand);
    SortBySorted(cells, MoreDemand(demand));
  }

  /** A cell among the first `k` in the demand order has no less demand than one after them. */
  lemma SortedPrefixHasMostDemand(cells: seq<Cell>, demand: seq<nat>, k: nat, c: Cell, d: Cell)
    requires k <= |cells|
    requires c in SortBy(cells, MoreDemand(demand))[..k]
    requires d in cells && d !in SortBy(cells, MoreDemand(demand))[..k]
    ensures CellDemand(demand, c) >= CellDemand(demand, d)
  {
    var sorted := SortBy(cells, MoreDemand(demand));
    assert c in sorted;
    SortByKeeps(cells, MoreDemand(demand), d);
    PrefixPosition(sorted, k, c);
    PrefixPosition(sorted, k, d);
    var p :| 0 <= p < k && sorted[p] == c;
    var q :| k <= q < |sorted| && sorted[q] == d;
    SortedByDemand(cells, demand, p, q);
  }

  /** An allowed cell has no less demand than a new cell left out. */
  lemma AllowedHaveMostDemand(before: Matrix, sel: Matrix, demand: seq<nat>, aMax: nat, c: Cell, d: Cell)
    requires IsMatrix(before, |before|) && IsMatrix(sel, |before|) && aMax <= |NewCells(before, sel, |before|)|
    requires c in Allowed(before, sel, demand, aMax)
    requires d in NewCells(before, sel, |before|) && d !in Allowed(before, sel, demand, aMax)
    ensures CellDemand(demand, c) >= CellDemand(demand, d)
  {
    SortedPrefixHasMostDemand(NewCells(before, sel, |before|), demand, aMax, c, d);
  }

  /**
    Within the budget the selection stands. Over it, no active cell is turned
    off, exactly `aMax` cells are turned on, all of them cells the selection
    turned on, and none of them has less demand than a selected cell that
    was dropped.
  */
  lemma LimitedProperties(before: Matrix, sel: Matrix, demand: seq<nat>, aMax: nat)
    requires IsMatrix(before, |before|) && IsMatrix(sel, |before|)
    ensures var fin := Limited(before, sel, demand, aMax);
      && IsMatrix(fin, |before|)
      && (|TurnedOn(before, sel)| <= aMax ==> fin == sel)
      && (|TurnedOn(before, sel)| > aMax ==>
          && (forall i, v :: 0 <= i < |before| && 0 <= v < NUM_VNFS && before[i][v] ==> fin[i][v])
          && TurnedOn(before, fin) <= TurnedOn(before, sel)
          && |TurnedOn(before, fin)| == aMax
          && (forall c, d :: c in TurnedOn(before, fin) && d in TurnedOn(before, sel) - TurnedOn(before, fin) ==>
                CellDemand(demand, c) >= CellDemand(demand, d)))
  {
    var cells := NewCells(before, sel, |before|);
    NewCellsFacts(before, sel, |before|);
    NoRepeatsCard(cells);
    if |cells| > aMax {
      var allowed := Allowed(before, sel, demand, aMax);
      AllowedFacts(before, sel, demand, aMax);
      forall c | c in allowed
        ensures c in cells
      {
        assert c in Elems(allowed);
        assert c in Elems(cells);
      }
      OverlayTurnsOn(before, allowed);
      forall c, d | c in TurnedOn(before, Overlay(before, allowed)) && d in TurnedOn(before, sel) - TurnedOn(before, Overlay(before, allowed))
        ensures CellDemand(demand, c) >= CellDemand(demand, d)
      {
        AllowedHaveMostDemand(before, sel, demand, aMax, c, d);
      }
    }
  }

  // ---------------------------------------------------------------------
  // Pushing the rows into the UAVs

  /** `np.where(row == 1)[0]`: the columns holding a 1, in ascending order. */
  function Indices(row: seq<bool>): seq<nat> {
    if row == [] then []
    else Indices(row[..|row| - 1]) + (if row[|row| - 1] then [|row| - 1] else [])
  }

  /** The listed columns are exactly those holding a 1. */
  lemma {:induction false} IndicesMembership(row: seq<bool>)
    ensures forall v: nat :: v in Indices(row) <==> v < |row| && row[v]
  {
    if row != [] {
      var n := |row| - 1;
      var p := row[..n];
      IndicesMembership(p);
      assert Indices(row) == Indices(p) + (if row[n] then [n] else []);
      forall v: nat
        ensures v in Indices(row) <==> v < |row| && row[v]
      {
        if v < n {
          assert p[v] == row[v];
        }
      }
    }
  }

  /** The columns are listed in ascending order. */
  lemma {:induction false} IndicesAscending(row: seq<bool>)
    ensures forall a, b :: 0 <= a < b < |Indices(row)| ==> Indices(row)[a] < Indices(row)[b]
  {
    if row != [] {
      var n := |row| - 1;
      var p := row[..n];
      var ps := Indices(p);
      IndicesAscending(p);
      IndicesMembership(p);
      assert forall k :: 0 <= k < |ps| ==> ps[k] in ps;
      assert forall k :: 0 <= k < |ps| ==> ps[k] < n;
      var r := Indices(row);
      assert r == ps + (if row[n] then [n] else []);
      forall a, b | 0 <= a < b < |r|
        ensures r[a] < r[b]
      {
        if b < |ps| {
          assert r[a] == ps[a] && r[b] == ps[b];
        } else {
          assert r[a] == ps[a] && r[b] == n;
        }
      }
    }
  }

  lemma IndicesFacts(row: seq<bool>)
    ensures forall v: nat :: v in Indices(row) <==> v < |row| && row[v]
    ensures forall a, b :: 0 <= a < b < |Indices(row)| ==> Indices(row)[a] < Indices(row)[b]
  {
    IndicesMembership(row);
    IndicesAscending(row);
  }

  /** The VNF set after `activate_vnf` of each of `vs` in turn. */
  function ActivateAll(active: set<nat>, cap: nat, vs: seq<nat>): set<nat> {
    if vs == [] then active
    else Activate(ActivateAll(active, cap, vs[..|vs| - 1]), cap, vs[|vs| - 1])
  }

  /** Activating distinct ids one by one from nothing keeps the first `cap` of them. */
  lemma {:induction false} ActivateAllKeepsFirst(cap: nat, vs: seq<nat>)
    requires NoRepeats(vs)
    ensures ActivateAll({}, cap, vs) == Elems(vs[..Min(cap, |vs|)])
  {
    if vs != [] {
      var t := vs[..|vs| - 1];
      var x := vs[|vs| - 1];
      assert vs == t + [x];
      NoRepeatsPrefix(vs, |vs| - 1);
      ActivateAllKeepsFirst(cap, t);
      var prev := Elems(t[..Min(cap, |t|)]);
      NoRepeatsPrefix(t, Min(cap, |t|));
      NoRepeatsCard(t[..Min(cap, |t|)]);
      if |t| < cap {
        assert t[..Min(cap, |t|)] == t;
        assert vs[..Min(cap, |vs|)] == t + [x];
        assert Elems(t + [x]) == Elems(t) + {x};
      } else {
        assert vs[..Min(cap, |vs|)] == t[..Min(cap, |t|)];
      }
    }
  }

  /** A strictly ascending list repeats nothing. */
  lemma {:induction false} AscendingNoRepeats(vs: seq<nat>)
    requires forall a, b :: 0 <= a < b < |vs| ==> vs[a] < vs[b]
    ensures NoRepeats(vs)
  {
    if vs != [] {
      var t := vs[..|vs| - 1];
      AscendingNoRepeats(t);
      assert forall k :: 0 <= k < |t| ==> t[k] < vs[|vs| - 1];
      NoRepeatsAppend(t, [vs[|vs| - 1]]);
      assert vs == t + [vs[|vs| - 1]];
    }
  }

  /**
    optimisation.py:353-364 with classes.py:43-45: clearing a UAV's set and
    activating the ones of its final row in column order leaves the
    lowest-numbered `min(max_vnfs, row count)` of them active.
  */
  lemma AppliedRowKeepsLowest(row: seq<bool>, cap: nat)
    ensures var active := ActivateAll({}, cap, Indices(row));
      && active <= RowSet(row)
      && |active| == Min(cap, |RowSet(row)|)
      && |active| <= cap
      && (forall v, w :: v in active && w in RowSet(row) - active ==> v < w)
  {
    var vs := Indices(row);
    IndicesFacts(row);
    AscendingNoRepeats(vs);
    ActivateAllKeepsFirst(cap, vs);
    var k := Min(cap, |vs|);
    NoRepeatsPrefix(vs, k);
    NoRepeatsCard(vs[..k]);
    NoRepeatsCard(vs);
    assert Elems(vs) == RowSet(row);
    forall v, w | v in Elems(vs[..k]) && w in RowSet(row) - Elems(vs[..k])
      ensures v < w
    {
      var a :| 0 <= a < k && vs[a] == v;
      assert forall j :: 0 <= j < k ==> vs[j] in vs[..k];
      var b :| 0 <= b < |vs| && vs[b] == w;
    }
  }

  /** With A_max = 0, as `PARAMS` sets it, the commit never turns a VNF on. */
  lemma NoNewActivationsWhenAMaxZero(before: Matrix, sel: Matrix, demand: seq<nat>)
    requires IsMatrix(before, |before|) && IsMatrix(sel, |before|)
    ensures IsMatrix(Limited(before, sel, demand, A_MAX), |before|)
    ensures TurnedOn(before, Limited(before, sel, demand, A_MAX)) == {}
  {
    LimitedProperties(before, sel, demand, A_MAX);
    if |TurnedOn(before, sel)| <= A_MAX {
      assert TurnedOn(before, sel) == {};
    }
  }

  // ---------------------------------------------------------------------
  // The commit on the UAVs and numpy arrays

  /** An array matrix as a value. */
  function Contents(m: array2<bool>): (c: Matrix)
    reads m
    ensures |c| == m.Length0
    ensures forall i :: 0 <= i < m.Length0 ==> |c[i]| == m.Length1
    ensures forall i, v :: 0 <= i < m.Length0 && 0 <= v < m.Length1 ==> c[i][v] == m[i, v]
  {
    seq(m.Length0, i requires 0 <= i < m.Length0 reads m =>
      seq(m.Length1, v requires 0 <= v < m.Length1 reads m => m[i, v]))
  }

  lemma ContentsIs(m: array2<bool>, rows: Matrix)
    requires |rows| == m.Length0 && forall i :: 0 <= i < m.Length0 ==> |rows[i]| == m.Length1
    requires forall i, v :: 0 <= i < m.Length0 && 0 <= v < m.Length1 ==> m[i, v] == rows[i][v]
    ensures Contents(m) == rows
  {
    assert forall i :: 0 <= i < m.Length0 ==> Contents(m)[i] == rows[i];
  }

  function ActiveSets(uavs: seq<Uav>): (s: seq<set<nat>>)
    reads uavs
    ensures |s| == |uavs| && forall i :: 0 <= i < |uavs| ==> s[i] == uavs[i].activeVnfs
  {
    seq(|uavs|, i requires 0 <= i < |uavs| reads uavs => uavs[i].activeVnfs)
  }

  function ActiveFlags(uavs: seq<Uav>): (s: seq<bool>)
    reads uavs
    ensures |s| == |uavs| && forall i :: 0 <= i < |uavs| ==> s[i] == uavs[i].isActive
  {
    seq(|uavs|, i requires 0 <= i < |uavs| reads uavs => uavs[i].isActive)
  }

  function NeededSets(uavs: seq<Uav>): (s: seq<set<nat>>)
    reads uavs
    ensures |s| == |uavs| && forall i :: 0 <= i < |uavs| ==> s[i] == Needed(uavs[i].connectedUsers)
  {
    seq(|uavs|, i requires 0 <= i < |uavs| reads uavs => Needed(uavs[i].connectedUsers))
  }

  function Caps(uavs: seq<Uav>): (s: seq<nat>)
    ensures |s| == |uavs| && forall i :: 0 <= i < |uavs| ==> s[i] == uavs[i].maxVnfs
  {
    seq(|uavs|, i requires 0 <= i < |uavs| => uavs[i].maxVnfs)
  }

  /** A set has subsets of every smaller size. */
  lemma {:induction false} SubsetOfSize(s: set<nat>, k: nat)
    requires k <= |s|
    ensures exists t: set<nat> :: t <= s && |t| == k
  {
    if k == 0 {
      var e: set<nat> := {};
      assert e <= s && |e| == 0;
    } else {
      var x :| x in s;
      SubsetOfSize(s - {x}, k - 1);
      var t: set<nat> :| t <= s - {x} && |t| == k - 1;
      assert t + {x} <= s && |t + {x}| == k;
    }
  }

  /** optimisation.py:258-262. */
  method OldActivations(uavs: seq<Uav>, ghost sets: seq<set<nat>>) returns (m: array2<bool>)
    requires forall i :: 0 <= i < |uavs| ==> VnfIds(uavs[i].activeVnfs)
    requires sets == ActiveSets(uavs)
    ensures fresh(m) && m.Length0 == |uavs| && m.Length1 == NUM_VNFS
    ensures Contents(m) == OldMatrix(sets)
  {
    m := new bool[|uavs|, NUM_VNFS]((i, v) => false);
    for idx := 0 to |uavs|
      invariant forall i, v :: 0 <= i < |uavs| && 0 <= v < NUM_VNFS ==>
        m[i, v] == (i < idx && v in uavs[i].activeVnfs)
    {
      var rest := uavs[idx].activeVnfs;
      while rest != {}
        invariant rest <= uavs[idx].activeVnfs
        invariant forall i, v :: 0 <= i < |uavs| && 0 <= v < NUM_VNFS ==>
          m[i, v] == ((i < idx && v in uavs[i].activeVnfs) || (i == idx && v in uavs[idx].activeVnfs - rest))
        decreases |rest|
      {
        var v :| v in rest;
        m[idx, v] := true;
        rest := rest - {v};
      }
    }
    ContentsIs(m, OldMatrix(sets));
  }

  /** optimisation.py:320-322. */
  method NeededVnfs(users: seq<UserRequest>) returns (needed: set<nat>)
    ensures needed == Needed(users)
  {
    needed := {};
    for k := 0 to |users|
      invariant needed == Needed(users[..k])
    {
      assert users[..k + 1][..k] == users[..k];
      needed := needed + RequestedSet(users[k]);
    }
    assert users[..|users|] == users;
  }

  /** optimisation.py:330-331: sets the cells of row `idx` named in `chosen` to 1. */
  method SetRow(m: array2<bool>, idx: nat, chosen: set<nat>)
    requires idx < m.Length0
    modifies m
    ensures forall i, w :: 0 <= i < m.Length0 && 0 <= w < m.Length1 ==>
      m[i, w] == if i == idx && w in chosen then true else old(m[i, w])
  {
    for v := 0 to m.Length1
      invariant forall i, w :: 0 <= i < m.Length0 && 0 <= w < m.Length1 ==>
        m[i, w] == if i == idx && w < v && w in chosen then true else old(m[i, w])
    {
      if v in chosen {
        m[idx, v] := true;
      }
    }
  }

  /**
    optimisation.py:307-331: the rows of `new_activations` before the A_max
    limit; `random.sample` is a nondeterministic choice of a subset of
    exactly `max_vnfs` valid VNFs.
  */
  method SelectActivations(uavs: seq<Uav>, gbest: Matrix, ghost flags: seq<bool>, ghost needs: seq<set<nat>>)
    returns (sel: array2<bool>)
    requires IsMatrix(gbest, |uavs|)
    requires flags == ActiveFlags(uavs) && needs == NeededSets(uavs)
    ensures fresh(sel) && sel.Length0 == |uavs| && sel.Length1 == NUM_VNFS
    ensures ValidSelection(flags, needs, Caps(uavs), gbest, Contents(sel))
  {
    ghost var caps := Caps(uavs);
    sel := new bool[|uavs|, NUM_VNFS]((i, v) => false);
    ghost var empty := seq(NUM_VNFS, v => false);
    assert RowSet(empty) == {};
    ghost var rows: seq<seq<bool>> := seq(|uavs|, i => empty);
    for idx := 0 to |uavs|
      invariant |rows| == |uavs| && forall i :: 0 <= i < |uavs| ==> |rows[i]| == NUM_VNFS
      invariant forall i, v :: 0 <= i < |uavs| && 0 <= v < NUM_VNFS ==> sel[i, v] == rows[i][v]
      invariant forall i :: idx <= i < |uavs| ==> rows[i] == empty
      invariant RowsChosen(flags, needs, caps, gbest, rows, idx)
    {
      ghost var row := SelectRow(uavs[idx], gbest[idx], sel, idx, needs[idx], caps[idx]);
      RowsChosenExtend(flags, needs, caps, gbest, rows, idx, row);
      rows := rows[idx := row];
    }
    ContentsIs(sel, rows);
  }

  /** The first `n` rows of `rows` are valid choices. */
  ghost predicate RowsChosen(active: seq<bool>, needed: seq<set<nat>>, caps: seq<nat>, gbest: Matrix, rows: Matrix, n: nat)
    requires n <= |active| == |needed| == |caps| == |gbest| == |rows|
  {
    forall i :: 0 <= i < n ==> RowChoice(active[i], needed[i], caps[i], gbest[i], rows[i])
  }

  lemma RowsChosenExtend(active: seq<bool>, needed: seq<set<nat>>, caps: seq<nat>, gbest: Matrix, rows: Matrix, n: nat, row: seq<bool>)
    requires n < |active| == |needed| == |caps| == |gbest| == |rows|
    requires RowsChosen(active, needed, caps, gbest, rows, n)
    requires RowChoice(active[n], needed[n], caps[n], gbest[n], row)
    ensures RowsChosen(active, needed, caps, gbest, rows[n := row], n + 1)
  {
  }

  /**
    optimisation.py:315-331 for the UAV of row `idx`: an inactive UAV is
    skipped; an active one gets its valid choice set in its row.
  */
  method SelectRow(uav: Uav, bestRow: seq<bool>, sel: array2<bool>, idx: nat, ghost needs: set<nat>, ghost cap: nat)
    returns (ghost row: seq<bool>)
    requires |bestRow| == NUM_VNFS && idx < sel.Length0 && sel.Length1 == NUM_VNFS
    requires needs == Needed(uav.connectedUsers) && cap == uav.maxVnfs
    modifies sel
    ensures |row| == NUM_VNFS
    ensures RowChoice(uav.isActive, needs, cap, bestRow, row)
    ensures forall i, w :: 0 <= i < sel.Length0 && 0 <= w < NUM_VNFS ==>
      sel[i, w] == if i == idx then row[w] || old(sel[i, w]) else old(sel[i, w])
  {
    if !uav.isActive {
      row := seq(NUM_VNFS, w => false);
      assert RowSet(row) == {};
      return;
    }
    var needed := NeededVnfs(uav.connectedUsers);
    var valid := RowSet(bestRow) * needed;
    var chosen := valid;
    if |valid| > uav.maxVnfs {
      SubsetOfSize(valid, uav.maxVnfs);
      chosen :| chosen <= valid && |chosen| == uav.maxVnfs;
    }
    SetRow(sel, idx, chosen);
    row := seq(NUM_VNFS, w => w in chosen);
    ChosenRow(valid, chosen, bestRow, needed, uav.maxVnfs);
  }

  /** A row holding exactly a valid choice of VNFs satisfies `RowChoice`. */
  lemma ChosenRow(valid: set<nat>, chosen: set<nat>, bestRow: seq<bool>, needed: set<nat>, cap: nat)
    requires |bestRow| == NUM_VNFS && valid == RowSet(bestRow) * needed
    requires chosen <= valid && |chosen| == Min(|valid|, cap)
    ensures RowChoice(true, needed, cap, bestRow, seq(NUM_VNFS, w => w in chosen))
  {
    assert RowSet(seq(NUM_VNFS, w => w in chosen)) == chosen;
  }

  /** optimisation.py:309-313. */
  method DemandVector(requests: seq<UserRequest>) returns (demand: array<nat>)
    requires forall j :: 0 <= j < |requests| ==> InCatalogue(requests[j])
    ensures fresh(demand) && demand[..] == Demands(requests)
  {
    demand := new nat[NUM_VNFS](v => 0);
    for j := 0 to |requests|
      invariant demand.Length == NUM_VNFS
      invariant forall v :: 0 <= v < NUM_VNFS ==> demand[v] == Demand(requests[..j], v)
    {
      var vnfs := requests[j].requestedVnfs;
      for k := 0 to |vnfs|
        invariant forall v :: 0 <= v < NUM_VNFS ==> demand[v] == Demand(requests[..j], v) + Count(vnfs[..k], v)
      {
        assert vnfs[..k + 1][..k] == vnfs[..k];
        assert vnfs[k] in requests[j].requestedVnfs;
        demand[vnfs[k]] := demand[vnfs[k]] + 1;
      }
      assert vnfs[..|vnfs|] == vnfs;
      assert requests[..j + 1][..j] == requests[..j];
    }
    assert requests[..|requests|] == requests;
  }

  /**
    optimisation.py:333-351: the count of 0->1 cells, and when it exceeds
    `aMax` the new `delta` holding the `aMax` most demanded of them, added
    onto the old matrix and clipped.
  */
  method LimitActivations(before: array2<bool>, sel: array2<bool>, demand: array<nat>, aMax: nat,
                          ghost oldRows: Matrix, ghost selRows: Matrix, ghost demands: seq<nat>)
    returns (fin: array2<bool>)
    requires before.Length1 == sel.Length1 == NUM_VNFS && before.Length0 == sel.Length0
    requires oldRows == Contents(before) && selRows == Contents(sel) && demands == demand[..]
    ensures fin == sel || fresh(fin)
    ensures fin.Length0 == before.Length0 && fin.Length1 == NUM_VNFS
    ensures Contents(fin) == Limited(oldRows, selRows, demands, aMax)
  {
    var n := before.Length0;
    var cells := NewCells(Contents(before), Contents(sel), n);
    if |cells| > aMax {
      var allowed := SortBy(cells, MoreDemand(demand[..]))[..aMax];
      AllowedInRange(Contents(before), Contents(sel), demand[..], aMax);
      var delta := MarkCells(n, allowed);
      fin := new bool[n, NUM_VNFS]((i, v) reads before, delta =>
        if 0 <= i < n && 0 <= v < NUM_VNFS then before[i, v] || delta[i, v] == 1 else false);
      ContentsIs(fin, Overlay(Contents(before), allowed));
    } else {
      fin := sel;
    }
  }

  /** The allowed cells lie inside the matrix. */
  lemma AllowedInRange(before: Matrix, sel: Matrix, demand: seq<nat>, aMax: nat)
    requires IsMatrix(before, |before|) && IsMatrix(sel, |before|) && aMax <= |NewCells(before, sel, |before|)|
    ensures forall c :: c in Allowed(before, sel, demand, aMax) ==> c.uav < |before| && c.vnf < NUM_VNFS
  {
    var cells := NewCells(before, sel, |before|);
    NewCellsFacts(before, sel, |before|);
    AllowedFacts(before, sel, demand, aMax);
    var allowed := Allowed(before, sel, demand, aMax);
    forall c | c in allowed
      ensures c in cells
    {
      assert c in Elems(allowed);
    }
  }

  /** optimisation.py:346-348: a zeroed `delta` with a 1 at each allowed cell. */
  method MarkCells(n: nat, allowed: seq<Cell>) returns (delta: array2<int>)
    requires forall c :: c in allowed ==> c.uav < n && c.vnf < NUM_VNFS
    ensures fresh(delta) && delta.Length0 == n && delta.Length1 == NUM_VNFS
    ensures forall i, v :: 0 <= i < n && 0 <= v < NUM_VNFS ==> delta[i, v] == if Cell(i, v) in allowed then 1 else 0
  {
    delta := new int[n, NUM_VNFS]((i, v) => 0);
    for k := 0 to |allowed|
      invariant forall i, v :: 0 <= i < n && 0 <= v < NUM_VNFS ==>
        delta[i, v] == if Cell(i, v) in allowed[..k] then 1 else 0
    {
      assert allowed[..k + 1] == allowed[..k] + [allowed[k]];
      delta[allowed[k].uav, allowed[k].vnf] := 1;
    }
    assert allowed[..|allowed|] == allowed;
  }

  /**
    optimisation.py:353-364: each active UAV's set is cleared and its final
    row activated column by column through `activate_vnf`; inactive UAVs
    keep their sets.
  */
  method ApplyActivations(uavs: seq<Uav>, fin: array2<bool>)
    requires Distinct(uavs) && fin.Length0 == |uavs| && fin.Length1 == NUM_VNFS
    modifies uavs
    ensures forall i :: 0 <= i < |uavs| ==>
      && uavs[i].activeVnfs == (if uavs[i].isActive then ActivateAll({}, uavs[i].maxVnfs, Indices(Contents(fin)[i]))
                                else old(uavs[i].activeVnfs))
      && uavs[i].isActive == old(uavs[i].isActive)
      && uavs[i].position == old(uavs[i].position)
      && uavs[i].lastMovement == old(uavs[i].lastMovement)
      && uavs[i].connectedUsers == old(uavs[i].connectedUsers)
      && uavs[i].currentLoad == old(uavs[i].currentLoad)
  {
    ghost var rows := Contents(fin);
    ghost var others := seq(|uavs|, i requires 0 <= i < |uavs| reads uavs => OthersOf(uavs[i]));
    ghost var sets := seq(|uavs|, i requires 0 <= i < |uavs| reads uavs => uavs[i].activeVnfs);
    ghost var caps := seq(|uavs|, i requires 0 <= i < |uavs| => uavs[i].maxVnfs);
    ghost var current := sets;
    for idx := 0 to |uavs|
      invariant rows == Contents(fin)
      invariant forall i :: 0 <= i < |uavs| ==> OthersOf(uavs[i]) == others[i]
      invariant |current| == |uavs| && forall i :: 0 <= i < |uavs| ==> uavs[i].activeVnfs == current[i]
      invariant Applied(current, sets, others, caps, rows, idx)
    {
      ApplyRow(uavs[idx], fin, idx, rows[idx]);
      AppliedExtend(current, sets, others, caps, rows, idx, uavs[idx].activeVnfs);
      current := current[idx := uavs[idx].activeVnfs];
    }
  }

  /** The sets of the first `n` UAVs are the applied rows (active ones) or the old sets; the rest are the old sets. */
  ghost predicate Applied(current: seq<set<nat>>, sets: seq<set<nat>>, others: seq<Others>, caps: seq<nat>, rows: Matrix, n: nat)
    requires |current| == |sets| == |others| == |caps| == |rows|
  {
    forall i :: 0 <= i < |current| ==>
      current[i] == (if i < n && others[i].isActive then ActivateAll({}, caps[i], Indices(rows[i])) else sets[i])
  }

  lemma AppliedExtend(current: seq<set<nat>>, sets: seq<set<nat>>, others: seq<Others>, caps: seq<nat>, rows: Matrix, n: nat, s: set<nat>)
    requires n < |current| == |sets| == |others| == |caps| == |rows|
    requires Applied(current, sets, others, caps, rows, n)
    requires s == if others[n].isActive then ActivateAll({}, caps[n], Indices(rows[n])) else sets[n]
    ensures Applied(current[n := s], sets, others, caps, rows, n + 1)
  {
  }

  /** The fields of a UAV other than its VNF set. */
  datatype Others = Others(isActive: bool, position: Point, lastMovement: real, connectedUsers: seq<UserRequest>, currentLoad: int)

  function OthersOf(u: Uav): Others
    reads u
  {
    Others(u.isActive, u.position, u.lastMovement, u.connectedUsers, u.currentLoad)
  }

  /** optimisation.py:355-364 for the UAV of row `idx`: an inactive UAV keeps its set. */
  method ApplyRow(uav: Uav, fin: array2<bool>, idx: nat, ghost finRow: seq<bool>)
    requires idx < fin.Length0 && fin.Length1 == NUM_VNFS && finRow == Contents(fin)[idx]
    modifies uav`activeVnfs
    ensures uav.activeVnfs == if uav.isActive then ActivateAll({}, uav.maxVnfs, Indices(finRow)) else old(uav.activeVnfs)
  {
    if !uav.isActive {
      return;
    }
    var row := seq(NUM_VNFS, v requires 0 <= v < NUM_VNFS reads fin => fin[idx, v]);
    assert row == finRow;
    ActivateRow(uav, Indices(row));
  }

  /** optimisation.py:361-364: clear the set, then `activate_vnf` each id in turn. */
  method ActivateRow(uav: Uav, vnfIndices: seq<nat>)
    modifies uav`activeVnfs
    ensures uav.activeVnfs == ActivateAll({}, uav.maxVnfs, vnfIndices)
  {
    uav.activeVnfs := {};
    for k := 0 to |vnfIndices|
      invariant uav.activeVnfs == ActivateAll({}, uav.maxVnfs, vnfIndices[..k])
    {
      assert vnfIndices[..k + 1][..k] == vnfIndices[..k];
      uav.ActivateVnf(vnfIndices[k]);
    }
    assert vnfIndices[..|vnfIndices|] == vnfIndices;
  }

  /**
    The commit phase of `PSO.optimise` (optimisation.py:258-262, 307-364)
    with the swarm's best matrix `gbest` given: the rows chosen for the
    UAVs (`selection`) are a valid choice, and every active UAV ends with
    the VNFs its limited final row activates through `activate_vnf`.
  */
  method Commit(uavs: seq<Uav>, requests: seq<UserRequest>, gbest: Matrix, aMax: nat) returns (ghost selection: Matrix)
    requires Distinct(uavs) && IsMatrix(gbest, |uavs|)
    requires forall i :: 0 <= i < |uavs| ==> VnfIds(uavs[i].activeVnfs)
    requires forall j :: 0 <= j < |requests| ==> InCatalogue(requests[j])
    modifies uavs
    ensures ValidSelection(old(ActiveFlags(uavs)), old(NeededSets(uavs)), Caps(uavs), gbest, selection)
    ensures var fin := Limited(OldMatrix(old(ActiveSets(uavs))), selection, Demands(requests), aMax);
      && IsMatrix(fin, |uavs|)
      && forall i :: 0 <= i < |uavs| ==>
        uavs[i].activeVnfs == (if uavs[i].isActive then ActivateAll({}, uavs[i].maxVnfs, Indices(fin[i]))
                               else old(uavs[i].activeVnfs))
    ensures forall i :: 0 <= i < |uavs| ==>
      && uavs[i].isActive == old(uavs[i].isActive)
      && uavs[i].position == old(uavs[i].position)
      && uavs[i].lastMovement == old(uavs[i].lastMovement)
      && uavs[i].connectedUsers == old(uavs[i].connectedUsers)
      && uavs[i].currentLoad == old(uavs[i].currentLoad)
  {
    ghost var flags := ActiveFlags(uavs);
    ghost var needs := NeededSets(uavs);
    ghost var sets := ActiveSets(uavs);
    var fin;
    fin, selection := FinalMatrix(uavs, requests, gbest, aMax, flags, needs, sets);
    ApplyActivations(uavs, fin);
  }

  /**
    optimisation.py:258-262, 307-351: the limited final matrix, computed
    without touching the UAVs; `selection` is the matrix of chosen rows.
  */
  method FinalMatrix(uavs: seq<Uav>, requests: seq<UserRequest>, gbest: Matrix, aMax: nat,
                     ghost flags: seq<bool>, ghost needs: seq<set<nat>>, ghost sets: seq<set<nat>>)
    returns (fin: array2<bool>, ghost selection: Matrix)
    requires IsMatrix(gbest, |uavs|)
    requires forall i :: 0 <= i < |uavs| ==> VnfIds(uavs[i].activeVnfs)
    requires forall j :: 0 <= j < |requests| ==> InCatalogue(requests[j])
    requires flags == ActiveFlags(uavs) && needs == NeededSets(uavs) && sets == ActiveSets(uavs)
    ensures fin.Length0 == |uavs| && fin.Length1 == NUM_VNFS
    ensures ValidSelection(flags, needs, Caps(uavs), gbest, selection)
    ensures Contents(fin) == Limited(OldMatrix(sets), selection, Demands(requests), aMax)
  {
    var demand := DemandVector(requests);
    var before := OldActivations(uavs, sets);
    var sel := SelectActivations(uavs, gbest, flags, needs);
    selection := Contents(sel);
    fin := LimitActivations(before, sel, demand, aMax, OldMatrix(sets), selection, Demands(requests));
  }
}
