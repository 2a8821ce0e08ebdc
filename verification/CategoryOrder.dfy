/**
 The parent-first ordering of imported categories: a depth-first visit along parent links that
 refuses cycles. Ids are distinct: the payload validation rejects repeated primary ids.
 */
module CategoryOrder {
  import opened Wrappers

  datatype Row = Row(id: string, parentId: Option<string>)

  ghost predicate DistinctIds(rows: seq<Row>) {
    forall i, j :: 0 <= i < j < |rows| ==> rows[i].id != rows[j].id
  }

  // A Map built from [id, row] pairs.
  function ById(rows: seq<Row>): map<string, Row> {
    if |rows| == 0 then map[] else ById(rows[..|rows| - 1])[rows[|rows| - 1].id := rows[|rows| - 1]]
  }

  // The parent, if the row names one that is among the rows.
  function Parent(byId: map<string, Row>, row: Row): Option<Row> {
    if row.parentId.Some? && row.parentId.value != "" && row.parentId.value in byId then Some(byId[row.parentId.value])
    else None
  }

  // The n-th ancestor, if there is one.
  function Up(byId: map<string, Row>, row: Row, n: nat): Option<Row> {
    if n == 0 then Some(row)
    else
      var below :- Up(byId, row, n - 1);
      Parent(byId, below)
  }

  ghost predicate Reaches(byId: map<string, Row>, below: Row, above: Row) {
    exists n: nat :: n > 0 && Up(byId, below, n) == Some(above)
  }

  ghost predicate HasCycle(byId: map<string, Row>) {
    exists id :: id in byId && Reaches(byId, byId[id], byId[id])
  }

  ghost predicate WellKeyed(byId: map<string, Row>) { forall id :: id in byId ==> byId[id].id == id }

  // Every present parent stands somewhere before its child.
  ghost predicate ParentsFirst(byId: map<string, Row>, rows: seq<Row>) {
    forall i :: 0 <= i < |rows| && Parent(byId, rows[i]).Some? ==> Parent(byId, rows[i]).value in rows[..i]
  }

  class Visit {
    const byId: map<string, Row>
    var result: seq<Row>
    var visited: set<string>
    var visiting: set<string>

    ghost predicate Valid()
      reads this
    {
      && WellKeyed(byId)
      && visited !! visiting
      && visiting <= byId.Keys
      && (forall id :: id in visited <==> id in byId && byId[id] in result)
      && (forall row :: row in result ==> row.id in byId && byId[row.id] == row)
      && DistinctIds(result)
      && ParentsFirst(byId, result)
    }

    constructor (rows: seq<Row>)
      ensures byId == ById(rows) && result == [] && visiting == {} && Valid()
    {
      byId, result, visited, visiting := ById(rows), [], {}, {};
      new;
      ByIdKeys(rows);
    }

    // Either the row and all its ancestors are placed, or a cycle has been found.
    method Place(row: Row) returns (r: Result<(), string>)
      requires Valid() && row.id in byId && byId[row.id] == row
      requires AllReach(byId, visiting, row)
      modifies this
      decreases byId.Keys - visiting
      ensures r.Success? ==> Valid() && visiting == old(visiting) && old(result) <= result && row in result
      ensures r.Failure? ==> HasCycle(byId)
    {
      hide Parent, Reaches, AllReach, HasCycle, DistinctIds, ParentsFirst;
      if row.id in visited {
        return Success(());
      }
      if row.id in visiting {
        CycleFound(byId, visiting, row);
        return Failure(row.id);
      }
      visiting := visiting + {row.id};
      var parent := Parent(byId, row);
      if parent.Some? {
        ParentIsReached(byId, visiting - {row.id}, row);
        assert visiting - {row.id} + {row.id} == visiting;
        var _ :- Place(parent.value);
      }
      Settle(row);
      return Success(());
    }

    // The end of a visit: the row is done and takes the next place.
    method Settle(row: Row)
      requires Valid() && row.id in byId && byId[row.id] == row && row.id in visiting
      requires Parent(byId, row).Some? ==> Parent(byId, row).value in result
      modifies this
      ensures Valid() && visiting == old(visiting) - {row.id} && result == old(result) + [row]
    {
      hide Parent, DistinctIds, ParentsFirst;
      visiting := visiting - {row.id};
      visited := visited + {row.id};
      PlacedLast(byId, result, row);
      result := result + [row];
    }
  }

  // The rows being visited form the chain that led to this one.
  ghost predicate AllReach(byId: map<string, Row>, visiting: set<string>, row: Row) {
    forall id :: id in visiting ==> id in byId && Reaches(byId, byId[id], row)
  }

  lemma {:induction false} CycleFound(byId: map<string, Row>, visiting: set<string>, row: Row)
    requires AllReach(byId, visiting, row) && row.id in visiting && row.id in byId && byId[row.id] == row
    ensures HasCycle(byId)
  {
    hide Reaches;
  }

  lemma {:induction false} PlacedLast(byId: map<string, Row>, rows: seq<Row>, row: Row)
    requires DistinctIds(rows) && ParentsFirst(byId, rows)
    requires forall r :: r in rows ==> r.id != row.id
    requires Parent(byId, row).Some? ==> Parent(byId, row).value in rows
    ensures DistinctIds(rows + [row]) && ParentsFirst(byId, rows + [row])
  {
    hide Parent;
    var longer := rows + [row];
    forall i | 0 <= i < |longer| && Parent(byId, longer[i]).Some?
      ensures Parent(byId, longer[i]).value in longer[..i]
    {
      assert longer[..i] == rows[..i];
      assert rows[..|rows|] == rows;
    }
  }

  lemma {:induction false} ByIdKeys(rows: seq<Row>)
    ensures WellKeyed(ById(rows))
    ensures forall id :: id in ById(rows) ==> ById(rows)[id] in rows
    ensures forall row :: row in rows ==> row.id in ById(rows)
    ensures DistinctIds(rows) ==> forall row :: row in rows ==> ById(rows)[row.id] == row
  {
    if |rows| > 0 {
      var front, last := rows[..|rows| - 1], rows[|rows| - 1];
      assert rows == front + [last];
      ByIdKeys(front);
    }
  }

  lemma {:induction false} ParentIsReached(byId: map<string, Row>, visiting: set<string>, row: Row)
    requires WellKeyed(byId) && row.id in byId && byId[row.id] == row && Parent(byId, row).Some?
    requires AllReach(byId, visiting, row)
    ensures var p := Parent(byId, row).value;
            p.id in byId && byId[p.id] == p && AllReach(byId, visiting + {row.id}, p)
  {
    assert Up(byId, row, 0) == Some(row);
    assert Up(byId, row, 1) == Some(Parent(byId, row).value);
    forall id | id in visiting
      ensures Reaches(byId, byId[id], Parent(byId, row).value)
    {
      var n: nat :| n > 0 && Up(byId, byId[id], n) == Some(row);
      assert Up(byId, byId[id], n + 1) == Parent(byId, row);
    }
  }

  // In a list with parents first, ancestors lie strictly before.
  lemma {:induction false} AncestorsBefore(byId: map<string, Row>, rows: seq<Row>, i: nat, n: nat)
    requires ParentsFirst(byId, rows) && i < |rows| && n > 0 && Up(byId, rows[i], n).Some?
    ensures Up(byId, rows[i], n).value in rows[..i]
  {
    if n == 1 {
      assert Up(byId, rows[i], 0) == Some(rows[i]);
    } else {
      AncestorsBefore(byId, rows, i, n - 1);
      var below := Up(byId, rows[i], n - 1).value;
      var j :| 0 <= j < i && rows[..i][j] == below;
      assert rows[j] == below;
    }
  }

  lemma {:induction false} NoCycleInOrder(byId: map<string, Row>, rows: seq<Row>)
    requires ParentsFirst(byId, rows) && DistinctIds(rows)
    requires forall id :: id in byId ==> byId[id] in rows
    ensures !HasCycle(byId)
  {
    if HasCycle(byId) {
      var id :| id in byId && Reaches(byId, byId[id], byId[id]);
      var n: nat :| n > 0 && Up(byId, byId[id], n) == Some(byId[id]);
      var i :| 0 <= i < |rows| && rows[i] == byId[id];
      assert forall j :: 0 <= j < i ==> rows[..i][j] == rows[j];
      AncestorsBefore(byId, rows, i, n);
    }
  }

  lemma {:induction false} DistinctMultiset(rows: seq<Row>, row: Row)
    requires DistinctIds(rows)
    ensures multiset(rows)[row] == if row in rows then 1 else 0
  {
    if |rows| > 0 {
      var front, last := rows[..|rows| - 1], rows[|rows| - 1];
      assert rows == front + [last];
      DistinctMultiset(front, row);
    }
  }

  lemma {:induction false} Rearranged(a: seq<Row>, b: seq<Row>)
    requires DistinctIds(a) && DistinctIds(b) && forall row :: row in a <==> row in b
    ensures multiset(a) == multiset(b)
  {
    forall row: Row
      ensures multiset(a)[row] == multiset(b)[row]
    {
      DistinctMultiset(a, row);
      DistinctMultiset(b, row);
    }
  }

  // ---------- parent links between rows ----------

  // The child names the parent's id.
  predicate IsParent(parent: Row, child: Row) { child.parentId == Some(parent.id) && parent.id != "" }

  // Rows of which each is the parent of the one before, the first one that of the last.
  ghost predicate Cycle(rows: seq<Row>, chain: seq<Row>) {
    && |chain| > 0 && (forall k :: 0 <= k < |chain| ==> chain[k] in rows)
    && (forall k :: 0 < k < |chain| ==> IsParent(chain[k], chain[k - 1]))
    && IsParent(chain[0], chain[|chain| - 1])
  }

  ghost predicate Cyclic(rows: seq<Row>) { exists chain :: Cycle(rows, chain) }

  ghost predicate ParentsBefore(rows: seq<Row>) {
    forall i, j :: 0 <= i < |rows| && 0 <= j < |rows| && IsParent(rows[j], rows[i]) ==> j < i
  }

  lemma {:induction false} ParentIs(rows: seq<Row>, child: Row, parent: Row)
    requires DistinctIds(rows)
    ensures Parent(ById(rows), child) == Some(parent) <==> parent in rows && IsParent(parent, child)
  {
    ByIdKeys(rows);
  }

  // The row and its first ancestors.
  lemma {:induction false} ChainUp(rows: seq<Row>, row: Row, n: nat) returns (chain: seq<Row>)
    requires DistinctIds(rows) && row in rows && Up(ById(rows), row, n).Some?
    ensures |chain| == n + 1 && chain[0] == row && chain[n] == Up(ById(rows), row, n).value
    ensures forall k :: 0 <= k < |chain| ==> chain[k] in rows
    ensures forall k :: 0 < k < |chain| ==> IsParent(chain[k], chain[k - 1])
  {
    hide ById, Parent, DistinctIds;
    if n == 0 {
      chain := [row];
    } else {
      chain := ChainUp(rows, row, n - 1);
      var next := Up(ById(rows), row, n).value;
      ParentIs(rows, chain[n - 1], next);
      chain := chain + [next];
    }
  }

  lemma {:induction false} UpChain(rows: seq<Row>, chain: seq<Row>, k: nat)
    requires DistinctIds(rows) && k < |chain| && (forall i :: 0 <= i < |chain| ==> chain[i] in rows)
    requires forall i :: 0 < i < |chain| ==> IsParent(chain[i], chain[i - 1])
    ensures Up(ById(rows), chain[0], k) == Some(chain[k])
  {
    hide ById, Parent, DistinctIds;
    if k > 0 {
      UpChain(rows, chain, k - 1);
      ParentIs(rows, chain[k - 1], chain[k]);
    }
  }

  lemma {:induction false} CyclesAgree(rows: seq<Row>)
    requires DistinctIds(rows)
    ensures HasCycle(ById(rows)) <==> Cyclic(rows)
  {
    hide ById, Parent, DistinctIds;
    ByIdKeys(rows);
    if HasCycle(ById(rows)) {
      var id :| id in ById(rows) && Reaches(ById(rows), ById(rows)[id], ById(rows)[id]);
      var row := ById(rows)[id];
      var n: nat :| n > 0 && Up(ById(rows), row, n) == Some(row);
      var chain := ChainUp(rows, row, n);
      assert Cycle(rows, chain[..n]);
    }
    if Cyclic(rows) {
      var chain: seq<Row> :| Cycle(rows, chain);
      var n := |chain|;
      UpChain(rows, chain, n - 1);
      ParentIs(rows, chain[n - 1], chain[0]);
      assert Up(ById(rows), chain[0], n) == Some(chain[0]);
      assert chain[0] in rows && ById(rows)[chain[0].id] == chain[0];
    }
  }

  lemma {:induction false} OrdersAgree(rows: seq<Row>, out: seq<Row>)
    requires DistinctIds(rows) && multiset(out) == multiset(rows)
    requires DistinctIds(out) && ParentsFirst(ById(rows), out)
    ensures ParentsBefore(out)
  {
    hide ById, Parent;
    forall i, j | 0 <= i < |out| && 0 <= j < |out| && IsParent(out[j], out[i])
      ensures j < i
    {
      assert out[j] in multiset(rows);
      ParentIs(rows, out[i], out[j]);
      var k :| 0 <= k < i && out[..i][k] == out[j];
      assert out[k] == out[j];
    }
  }

  // A visit starts with no row being visited.
  lemma {:induction false} NothingReaches(rows: seq<Row>)
    ensures forall row :: AllReach(ById(rows), {}, row)
  {
  }

  // Throws exactly when the parent links contain a cycle; otherwise returns the rows rearranged with
  // every present parent before its children.
  method CategoriesParentFirst(rows: seq<Row>) returns (r: Result<seq<Row>, string>)
    requires DistinctIds(rows)
    ensures r.Failure? <==> Cyclic(rows)
    ensures r.Success? ==> multiset(r.value) == multiset(rows) && ParentsBefore(r.value)
  {
    hide Cyclic, ParentsBefore, HasCycle, ParentsFirst, ById, AllReach, Parent;
    NothingReaches(rows);
    CyclesAgree(rows);
    var visit := new Visit(rows);
    ByIdKeys(rows);
    for i := 0 to |rows|
      invariant visit.Valid() && visit.visiting == {} && visit.byId == ById(rows)
      invariant forall k :: 0 <= k < i ==> rows[k] in visit.result
    {
      assert rows[i] in rows;
      var _ :- visit.Place(rows[i]);
    }
    NoCycleInOrder(ById(rows), visit.result);
    Rearranged(visit.result, rows);
    OrdersAgree(rows, visit.result);
    return Success(visit.result);
  }
}
